/** The life of connection tests over a run: who holds them, who ends them, and how often. */
module ConnectionLeases {
  import opened Outcomes
  import opened Connections
  import opened ConnectionStore
  import opened ConnectionInvariants
  import opened ConnectionTests
  import opened ConnectionRuns

  /** A test handed to an executor until the lease ends, or ended by one. */
  datatype Entry =
    | Held(op: string, executorId: string, at: int, until: int)
    | Ended(op: string, executorId: string, at: int, deadline: int)

  function Leases(ids: seq<string>, r: ClaimRequest): seq<Entry> {
    seq(|ids|, i requires 0 <= i < |ids| => Held(ids[i], r.executorId, r.now, r.now + r.lease))
  }

  /** What an event adds to the log. */
  ghost function Logged(s: State, e: Event): seq<Entry> {
    match e
    case ClaimBatch(r, order, b) => if Enabled(s, r, order, b) then Leases(b.ids[..b.claimed], r) else []
    case CompleteOne(op, executorId, c, now) =>
      if s.clock <= now && CompleteIn(s.store, op, executorId, c, now).Ok? && op in s.store.tests
      then [Ended(op, executorId, now, s.store.tests[op].deadlineAt)] else []
    case _ => []
  }

  ghost function Log(s: State, events: seq<Event>): seq<Entry>
    decreases |events|
  {
    if events == [] then [] else Logged(s, events[0]) + Log(Next(s, events[0]), events[1..])
  }

  // ----- what the log always satisfies

  /** A test is handed out again only after every earlier lease ended. */
  ghost predicate LeasesDoNotOverlap(log: seq<Entry>) {
    forall i, j :: 0 <= i < j < |log| && log[i].Held? && log[j].Held? && log[i].op == log[j].op ==>
      log[i].until <= log[j].at
  }

  /** The i-th entry is the last time before `end` that the test was handed out. */
  ghost predicate LastHeld(log: seq<Entry>, i: int, end: nat, op: string)
    requires end <= |log|
  {
    && 0 <= i < end && log[i].Held? && log[i].op == op
    && forall k :: i < k < end ==> !(log[k].Held? && log[k].op == op)
  }

  /** Whoever ends a test holds it, by its last lease, and is in time for both the lease and the deadline. */
  ghost predicate EndedByHolder(log: seq<Entry>, j: nat)
    requires j < |log| && log[j].Ended?
  {
    && log[j].at < log[j].deadline
    && exists i :: LastHeld(log, i, j, log[j].op) && log[i].executorId == log[j].executorId && log[j].at < log[i].until
  }

  /** A test that was ended is not handed out or ended again. */
  ghost predicate EndedOnce(log: seq<Entry>) {
    forall i, j :: 0 <= i < j < |log| && log[i].Ended? ==> log[j].op != log[i].op
  }

  /** No lease is longer than five minutes. */
  ghost predicate LeasesAreShort(log: seq<Entry>) {
    forall i :: 0 <= i < |log| && log[i].Held? ==> log[i].at < log[i].until <= log[i].at + 300_000_000_000
  }

  ghost predicate Fair(log: seq<Entry>) {
    LeasesAreShort(log) && LeasesDoNotOverlap(log) && EndedOnce(log)
    && forall j :: 0 <= j < |log| && log[j].Ended? ==> EndedByHolder(log, j)
  }

  // ----- how the log agrees with the store

  /** A lease in the log is over by now, or is the claim the store holds. */
  predicate OverOrHeld(e: Entry, claims: Claims, clock: int) {
    e.Held? ==> e.until <= clock
                || (e.op in claims && claims[e.op].executorId == e.executorId && claims[e.op].leaseExpiresAt == e.until)
  }

  /** How often the test was handed out. */
  function TimesHeld(log: seq<Entry>, op: string): nat {
    if log == [] then 0 else
    var last := log[|log| - 1];
    TimesHeld(log[..|log| - 1], op) + if last.Held? && last.op == op then 1 else 0
  }

  lemma TimesHeldLater(log: seq<Entry>, e: Entry, op: string)
    ensures TimesHeld(log + [e], op) == TimesHeld(log, op) + if e.Held? && e.op == op then 1 else 0
  {
    assert (log + [e])[..|log|] == log;
  }

  lemma {:induction false} NeverHeld(log: seq<Entry>, op: string)
    requires forall e :: e in log && e.Held? ==> e.op != op
    ensures TimesHeld(log, op) == 0
  {
    if log != [] {
      assert log[|log| - 1] in log;
      NeverHeld(log[..|log| - 1], op);
    }
  }

  ghost predicate HeldBy(log: seq<Entry>, op: string, c: Claim) {
    c.attempt == TimesHeld(log, op) &&
    exists i :: LastHeld(log, i, |log|, op) && log[i].executorId == c.executorId && log[i].until == c.leaseExpiresAt
  }

  /** A test in the log is no longer queued, and one that was ended is not active. */
  predicate InStep(e: Entry, tests: Tests) {
    e.op in tests && !tests[e.op].state.Queued? && (e.Ended? ==> !tests[e.op].IsActive())
  }

  ghost predicate Agrees(log: seq<Entry>, tests: Tests, claims: Claims, clock: int) {
    && (forall e :: e in log ==> InStep(e, tests) && (tests[e.op].IsActive() ==> OverOrHeld(e, claims, clock)))
    && (forall op :: op in claims ==> HeldBy(log, op, claims[op]))
  }

  // ----- one more entry

  lemma HeldLater(log: seq<Entry>, e: Entry, op: string, c: Claim)
    requires HeldBy(log, op, c) && (e.Held? ==> e.op != op)
    ensures HeldBy(log + [e], op, c)
  {
    var i :| LastHeld(log, i, |log|, op) && log[i].executorId == c.executorId && log[i].until == c.leaseExpiresAt;
    assert LastHeld(log + [e], i, |log + [e]|, op);
    TimesHeldLater(log, e, op);
  }

  lemma EndedByHolderLater(log: seq<Entry>, e: Entry, j: nat)
    requires j < |log| && log[j].Ended? && EndedByHolder(log, j)
    ensures EndedByHolder(log + [e], j)
  {
    var i :| LastHeld(log, i, j, log[j].op) && log[i].executorId == log[j].executorId && log[j].at < log[i].until;
    assert LastHeld(log + [e], i, j, log[j].op);
  }

  /** The leases of a test that may be claimed are all over. */
  lemma LeasesAreOver(log: seq<Entry>, tests: Tests, claims: Claims, op: string, now: int)
    requires Agrees(log, tests, claims, now) && op in tests
    requires tests[op].state.Queued? || (tests[op].state.Running? && op in claims && claims[op].leaseExpiresAt <= now)
    ensures forall e :: e in log && e.op == op ==> e.Held? && e.until <= now
  {
  }

  lemma FairWithHeld(log: seq<Entry>, e: Entry)
    requires Fair(log) && e.Held? && e.at < e.until <= e.at + 300_000_000_000
    requires forall d :: d in log && d.op == e.op ==> d.Held? && d.until <= e.at
    ensures Fair(log + [e])
  {
    var longer := log + [e];
    forall i, j | 0 <= i < j < |longer|
      ensures longer[i].Held? && longer[j].Held? && longer[i].op == longer[j].op ==> longer[i].until <= longer[j].at
      ensures longer[i].Ended? ==> longer[j].op != longer[i].op
    {
      assert longer[i] == log[i] && log[i] in log;
    }
    forall j | 0 <= j < |longer| && longer[j].Ended?
      ensures EndedByHolder(longer, j)
    {
      EndedByHolderLater(log, e, j);
    }
  }

  lemma AgreesWithHeld(log: seq<Entry>, tests: Tests, claims: Claims, e: Entry, now: int, t: TestOperation, c: Claim)
    requires Agrees(log, tests, claims, now) && e.Held? && e.op in tests && t.state.Running?
    requires c.executorId == e.executorId && c.leaseExpiresAt == e.until && c.attempt == TimesHeld(log, e.op) + 1
    requires forall d :: d in log && d.op == e.op ==> d.Held? && d.until <= now
    ensures Agrees(log + [e], tests[e.op := t], claims[e.op := c], now)
  {
    var longer := log + [e];
    forall op | op in claims && op != e.op
      ensures HeldBy(longer, op, claims[op])
    {
      HeldLater(log, e, op, claims[op]);
    }
    assert HeldBy(longer, e.op, c) by {
      assert LastHeld(longer, |log|, |longer|, e.op);
      TimesHeldLater(log, e, e.op);
    }
    forall d | d in longer
      ensures InStep(d, tests[e.op := t])
      ensures tests[e.op := t][d.op].IsActive() ==> OverOrHeld(d, claims[e.op := c], now)
    {
      assert d in log || d == e;
    }
  }

  lemma HoldStep(log: seq<Entry>, s: Store, op: string, r: ClaimRequest)
    requires Fair(log) && Agrees(log, s.tests, s.claims, r.now) && Free(s, op, r.now) && r.Valid()
    requires TimesHeld(log, op) == ClaimOf(s.claims, op).attempt
    ensures var e := Held(op, r.executorId, r.now, r.now + r.lease); var t := ClaimOne(s, op, r);
      Fair(log + [e]) && Agrees(log + [e], t.tests, t.claims, r.now)
  {
    hide Fair, Agrees;
    var e := Held(op, r.executorId, r.now, r.now + r.lease);
    LeasesAreOver(log, s.tests, s.claims, op, r.now);
    FairWithHeld(log, e);
    hide TimesHeld;
    AgreesWithHeld(log, s.tests, s.claims, e, r.now, Claimed(s.tests[op], r.now), ClaimOne(s, op, r).claims[op]);
  }

  /** The attempts counted so far, also for a test not claimed yet. */
  lemma AttemptsSoFar(log: seq<Entry>, s: Store, op: string, now: int)
    requires Agrees(log, s.tests, s.claims, now) && Free(s, op, now)
    ensures TimesHeld(log, op) == ClaimOf(s.claims, op).attempt
  {
    if op in s.claims {
      assert HeldBy(log, op, s.claims[op]);
    } else {
      assert forall e :: e in log && e.op == op ==> InStep(e, s.tests);
      NeverHeld(log, op);
    }
  }

  lemma LeasesInTwo(ids: seq<string>, r: ClaimRequest)
    requires ids != []
    ensures Leases(ids, r) == Leases(ids[..|ids| - 1], r) + [Held(ids[|ids| - 1], r.executorId, r.now, r.now + r.lease)]
  {
  }

  /** May be claimed; running tests have their claim. */
  predicate Free(s: Store, op: string, now: int) {
    Claimable(s, op, now) && (s.tests[op].state.Running? ==> op in s.claims)
  }

  /** A whole batch. */
  lemma {:induction false} BatchStep(log: seq<Entry>, s: Store, all: set<string>, ids: seq<string>, r: ClaimRequest)
    requires Fair(log) && Agrees(log, s.tests, s.claims, r.now) && r.Valid()
    requires ListsOnce(all, ids) && all <= s.tests.Keys
    requires forall op :: op in all ==> Free(s, op, r.now)
    ensures var t := ClaimEach(s, ids, r);
      Fair(log + Leases(ids, r)) && Agrees(log + Leases(ids, r), t.tests, t.claims, r.now)
    decreases |ids|
  {
    hide Fair, Agrees, HandedOut, Free;
    if ids == [] {
      assert log + Leases(ids, r) == log;
    } else {
      var front, op := ids[..|ids| - 1], ids[|ids| - 1];
      FrontOfList(all, ids);
      BatchStep(log, s, all - {op}, front, r);
      ClaimsEach(s, all - {op}, front, r);
      var t := ClaimEach(s, front, r);
      assert ClaimEach(s, ids, r) == ClaimOne(t, op, r);
      hide ListsOnce, ClaimEach, ClaimOne, Leases;
      LeasesInTwo(ids, r);
      assert log + Leases(ids, r) == log + Leases(front, r) + [Held(op, r.executorId, r.now, r.now + r.lease)];
      StillFree(s, t, all - {op}, op, r);
      AttemptsSoFar(log + Leases(front, r), t, op, r.now);
      HoldStep(log + Leases(front, r), t, op, r);
    }
  }

  lemma StillFree(s: Store, t: Store, done: set<string>, op: string, r: ClaimRequest)
    requires HandedOut(s, t, done, r) && op !in done && Free(s, op, r.now)
    ensures Free(t, op, r.now)
  {
    hide Claimed;
    assert t.tests[op] == s.tests[op];
    assert ClaimOf(t.claims, op) == ClaimOf(s.claims, op);
  }

  lemma EndStep(log: seq<Entry>, s: Store, op: string, executorId: string, c: Completion, now: int)
    requires Fair(log) && Agrees(log, s.tests, s.claims, now) && CompleteIn(s, op, executorId, c, now).Ok?
    requires op in s.claims
    ensures var e := Ended(op, executorId, now, s.tests[op].deadlineAt);
      var t := CompleteIn(s, op, executorId, c, now).value;
      Fair(log + [e]) && Agrees(log + [e], t.tests, t.claims, now)
  {
    var e := Ended(op, executorId, now, s.tests[op].deadlineAt);
    var t := CompleteIn(s, op, executorId, c, now).value;
    assert !t.tests[op].IsActive() && !t.tests[op].state.Queued? by {
      CompletionEnds(c);
    }
    hide CompleteIn;
    FairWithEnded(log, e, s.claims[op]);
    AgreesWithEnded(log, s.tests, s.claims, e, now, t.tests[op]);
  }

  lemma FairWithEnded(log: seq<Entry>, e: Entry, c: Claim)
    requires Fair(log) && e.Ended? && HeldBy(log, e.op, c) && c.executorId == e.executorId && e.at < c.leaseExpiresAt
    requires e.at < e.deadline
    requires forall d :: d in log && d.op == e.op ==> d.Held?
    ensures Fair(log + [e])
  {
    var longer := log + [e];
    forall i, j | 0 <= i < j < |longer|
      ensures longer[i].Held? && longer[j].Held? && longer[i].op == longer[j].op ==> longer[i].until <= longer[j].at
      ensures longer[i].Ended? ==> longer[j].op != longer[i].op
    {
      assert longer[i] == log[i] && log[i] in log;
    }
    forall j | 0 <= j < |longer| && longer[j].Ended?
      ensures EndedByHolder(longer, j)
    {
      if j < |log| {
        EndedByHolderLater(log, e, j);
      } else {
        var i :| LastHeld(log, i, |log|, e.op) && log[i].executorId == c.executorId && log[i].until == c.leaseExpiresAt;
        assert LastHeld(longer, i, j, e.op);
      }
    }
  }

  lemma AgreesWithEnded(log: seq<Entry>, tests: Tests, claims: Claims, e: Entry, now: int, t: TestOperation)
    requires Agrees(log, tests, claims, now) && e.Ended? && e.op in tests && !t.IsActive() && !t.state.Queued?
    ensures Agrees(log + [e], tests[e.op := t], claims - {e.op}, now)
  {
    var longer := log + [e];
    forall op | op in claims && op != e.op
      ensures HeldBy(longer, op, claims[op])
    {
      HeldLater(log, e, op, claims[op]);
    }
    forall d | d in longer
      ensures InStep(d, tests[e.op := t])
      ensures tests[e.op := t][d.op].IsActive() ==> OverOrHeld(d, claims - {e.op}, now)
    {
      assert d in log || d == e;
    }
  }

  // ----- what adds nothing to the log

  lemma PassAgrees(log: seq<Entry>, s: Store, order: seq<string>, now: int)
    requires Agrees(log, s.tests, s.claims, now) && IsWalk(s.tests, order)
    ensures Agrees(log, ExpireEach(s, order, now).tests, ExpireEach(s, order, now).claims, now)
  {
    hide ExpireEach, Passed, Due, HeldBy;
    WalkExpires(s, order, now);
    var r := ExpireEach(s, order, now);
    forall e | e in log
      ensures InStep(e, r.tests) && (r.tests[e.op].IsActive() ==> OverOrHeld(e, r.claims, now))
    {
      assert InStep(e, s.tests);
      PassedEnds(s.tests[e.op], now);
    }
  }

  lemma PassedEnds(t: TestOperation, now: int)
    ensures if Due(t, now) then !Passed(t, now).IsActive() && !Passed(t, now).state.Queued? else Passed(t, now) == t
  {
  }

  lemma ClockAgrees(log: seq<Entry>, tests: Tests, claims: Claims, clock: int, now: int)
    requires Agrees(log, tests, claims, clock) && clock <= now
    ensures Agrees(log, tests, claims, now)
  {
    hide HeldBy;
  }

  lemma AdmissionAgrees(log: seq<Entry>, tests: Tests, claims: Claims, clock: int, op: string, t: TestOperation)
    requires Agrees(log, tests, claims, clock) && op !in tests
    ensures Agrees(log, tests[op := t], claims, clock)
  {
    hide HeldBy;
  }

  lemma MutationsAdmitOnly(s: Store, m: Mutation)
    requires MutateIn(s, m).Ok?
    ensures MutateIn(s, m).value.store.claims == s.claims
    ensures if m.kind.Test? then m.test.Some? && MutateIn(s, m).value.store.tests ==
      s.tests[m.test.value.operationId := m.test.value]
            else MutateIn(s, m).value.store.tests == s.tests
  {
    hide LimitExceeded, HasActiveTest, Connection.Valid, TestOperation.Valid, Target;
    match m.kind {
      case Create =>
      case Delete =>
      case Test =>
      case _ =>
    }
  }

  // ----- every event keeps the log fair

  ghost predicate Orderly(log: seq<Entry>, s: State) {
    Fair(log) && Agrees(log, s.store.tests, s.store.claims, s.clock)
  }

  lemma MutationIsOrderly(log: seq<Entry>, s: State, m: Mutation, origin: Origin)
    requires Orderly(log, s)
    ensures Orderly(log, AfterMutation(s, m, origin))
  {
    hide Fair, Agrees, MutateIn, Identity.Valid, IdempotencyKey;
    if TakesEffect(s.store, m) && Allowed(s, m, origin) {
      MutationsAdmitOnly(s.store, m);
      if m.kind.Test? {
        AdmissionAgrees(log, s.store.tests, s.store.claims, s.clock, m.test.value.operationId, m.test.value);
      }
    }
  }

  lemma FreeToClaim(s: Store, r: ClaimRequest, ids: seq<string>, claimed: nat)
    requires Inv(s, r.now) && IsBatch(s, r, ids) && claimed <= |ids|
    ensures ListsOnce(SetOf(ids[..claimed]), ids[..claimed])
    ensures forall op :: op in ids[..claimed] ==> op in s.tests && Free(s, op, r.now)
  {
    hide Quotas, Indexed, Numbered, Present;
    BatchIsDistinct(s, r, ids);
    assert forall op :: op in ids[..claimed] ==> op in ids;
  }

  lemma BatchIsOrderly(log: seq<Entry>, s: State, r: ClaimRequest, order: seq<string>, b: Batch)
    requires Orderly(log, s) && Good(s) && Enabled(s, r, order, b)
    ensures Orderly(log + Leases(b.ids[..b.claimed], r), AfterBatch(s, r, order, b))
  {
    hide Fair, Agrees, Inv, Exact, Seen, ExpireEach, ClaimEach, IsBatch, Leases, ClaimRequest.Valid, Free;
    ClockKeepsInv(s.store, s.clock, r.now);
    ClockAgrees(log, s.store.tests, s.store.claims, s.clock, r.now);
    ExpiryKeepsInv(s.store, order, r.now);
    PassAgrees(log, s.store, order, r.now);
    FreeToClaim(ExpireEach(s.store, order, r.now), r, b.ids, b.claimed);
    BatchStep(log, ExpireEach(s.store, order, r.now), SetOf(b.ids[..b.claimed]), b.ids[..b.claimed], r);
  }

  lemma CompletionIsOrderly(log: seq<Entry>, s: State, op: string, executorId: string, c: Completion, now: int)
    requires Orderly(log, s) && Good(s) && s.clock <= now && CompleteIn(s.store, op, executorId, c, now).Ok?
    ensures op in s.store.tests
    ensures Orderly(
      log + [Ended(op, executorId, now, s.store.tests[op].deadlineAt)], AfterCompletion(s, op, executorId, c, now))
  {
    assert op in s.store.tests && s.store.tests[op].state.Running?;
    assert Sound(s.store.tests, s.store.claims, s.clock);
    hide Fair, Agrees, Inv, Exact, Seen, CompleteIn;
    ClockAgrees(log, s.store.tests, s.store.claims, s.clock, now);
    EndStep(log, s.store, op, executorId, c, now);
  }

  lemma ExpiryIsOrderly(log: seq<Entry>, s: State, now: int, order: seq<string>)
    requires Orderly(log, s)
    ensures Orderly(log, AfterExpiry(s, now, order))
  {
    hide Fair, Agrees, ExpireEach;
    if s.clock <= now && IsWalk(s.store.tests, order) {
      ClockAgrees(log, s.store.tests, s.store.claims, s.clock, now);
      PassAgrees(log, s.store, order, now);
    }
  }

  lemma NextIsOrderly(log: seq<Entry>, s: State, e: Event)
    requires Orderly(log, s) && Good(s)
    ensures Orderly(log + Logged(s, e), Next(s, e))
  {
    hide Fair, Agrees, Good, AfterMutation, Enabled, CompleteIn, AfterExpiry, Leases;
    assert log + [] == log;
    match e {
      case Mutate(m, origin) => MutationIsOrderly(log, s, m, origin);
      case ClaimBatch(r, order, b) =>
        if Enabled(s, r, order, b) {
          hide AfterBatch;
          BatchIsOrderly(log, s, r, order, b);
        }
      case CompleteOne(op, executorId, c, now) =>
        if s.clock <= now && CompleteIn(s.store, op, executorId, c, now).Ok? {
          CompletionIsOrderly(log, s, op, executorId, c, now);
        }
      case Pass(now, order) => ExpiryIsOrderly(log, s, now, order);
      case SetReferences(uid, counts) =>
    }
  }

  lemma {:induction false} RunIsOrderly(log: seq<Entry>, s: State, events: seq<Event>)
    requires Orderly(log, s) && Good(s)
    ensures Orderly(log + Log(s, events), Run(s, events))
    decreases |events|
  {
    hide Orderly, Good, Next, Logged;
    if events == [] {
      assert log + Log(s, events) == log;
    } else {
      var next := Next(s, events[0]);
      NextIsOrderly(log, s, events[0]);
      NextKeepsGood(s, events[0]);
      RunIsOrderly(log + Logged(s, events[0]), next, events[1..]);
      assert log + Log(s, events) == log + Logged(s, events[0]) + Log(next, events[1..]);
    }
  }

  /**
   Over every run, whoever the callers are, a test is handed out again
   only after all its earlier leases ended; it is ended at
   most once, by the executor it was last handed to, before that lease and its deadline are over; and
   it is not handed out after that.
   */
  lemma TestsAreHandledFairly(callers: Callers, events: seq<Event>)
    ensures Fair(Log(Init(callers), events))
  {
    InitIsGood(callers);
    hide Good, Run, Log;
    assert Orderly([], Init(callers));
    RunIsOrderly([], Init(callers), events);
    assert [] + Log(Init(callers), events) == Log(Init(callers), events);
  }

  /** Whoever the callers are, the attempt number of a claim is how often its test was handed out. */
  lemma AttemptsCountLeases(callers: Callers, events: seq<Event>, op: string)
    requires op in Run(Init(callers), events).store.claims
    ensures Run(Init(callers), events).store.claims[op].attempt == TimesHeld(Log(Init(callers), events), op)
  {
    InitIsGood(callers);
    hide Good, Run, Log, TimesHeld;
    assert Orderly([], Init(callers));
    RunIsOrderly([], Init(callers), events);
    assert [] + Log(Init(callers), events) == Log(Init(callers), events);
    var s := Run(Init(callers), events);
    assert HeldBy(Log(Init(callers), events), op, s.store.claims[op]);
  }

  // ----- ended tests

  /** The same test, later: once it ended it stays as it is, or expires. */
  predicate Aged(t: TestOperation, u: TestOperation) {
    LivesOn(t, u) && (!t.IsActive() ==> u == t || u.state.Expired?)
  }

  ghost predicate AllAged(tests: Tests, after: Tests) {
    forall op :: op in tests ==> op in after && Aged(tests[op], after[op])
  }

  lemma AgedOften(tests: Tests, middle: Tests, after: Tests)
    requires AllAged(tests, middle) && AllAged(middle, after)
    ensures AllAged(tests, after)
  {
    forall op | op in tests
      ensures op in after && Aged(tests[op], after[op])
    {
      assert Aged(tests[op], middle[op]);
      assert Aged(middle[op], after[op]);
    }
  }

  lemma PassAges(s: Store, order: seq<string>, now: int)
    requires Sound(s.tests, s.claims, now) && IsWalk(s.tests, order)
    ensures AllAged(s.tests, ExpireEach(s, order, now).tests)
  {
    hide ExpireEach, Passed, Due, SoundTest, LivesOn;
    WalkExpires(s, order, now);
    forall op | op in s.tests
      ensures Aged(s.tests[op], ExpireEach(s, order, now).tests[op])
    {
      PassingLivesOn(op, s.tests[op], now);
    }
  }

  lemma BatchAges(s: Store, r: ClaimRequest, ids: seq<string>, claimed: nat)
    requires Inv(s, r.now) && r.Valid() && IsBatch(s, r, ids) && claimed <= |ids|
    ensures SetOf(ids[..claimed]) <= s.tests.Keys && AllAged(s.tests, ClaimEach(s, ids[..claimed], r).tests)
  {
    BatchIsDistinct(s, r, ids);
    assert forall op :: op in ids[..claimed] ==> op in ids;
    ClaimingKeepsInv(s, r, ids, claimed);
    hide Inv, IsBatch, ClaimEach, Claimed, LivesOn, ClaimedIn;
  }

  lemma NextAges(s: State, e: Event)
    requires Good(s)
    ensures AllAged(s.store.tests, Next(s, e).store.tests)
  {
    hide Inv, Exact, Seen, MutateIn, ExpireEach, ClaimEach, IsBatch, ClaimRequest.Valid, Identity.Valid, IdempotencyKey;
    match e {
      case Mutate(m, origin) =>
        if TakesEffect(s.store, m) && Allowed(s, m, origin) {
          MutationsAdmitOnly(s.store, m);
        }
      case ClaimBatch(r, order, b) =>
        if Enabled(s, r, order, b) {
          ClockKeepsInv(s.store, s.clock, r.now);
          InvIsSound(s.store, r.now);
          ExpiryKeepsInv(s.store, order, r.now);
          PassAges(s.store, order, r.now);
          BatchAges(ExpireEach(s.store, order, r.now), r, b.ids, b.claimed);
          AgedOften(s.store.tests, ExpireEach(s.store, order, r.now).tests, Next(s, e).store.tests);
        }
      case CompleteOne(op, executorId, c, now) =>
      case Pass(now, order) =>
        if s.clock <= now && IsWalk(s.store.tests, order) {
          ClockKeepsInv(s.store, s.clock, now);
          InvIsSound(s.store, now);
          PassAges(s.store, order, now);
        }
      case SetReferences(uid, counts) =>
    }
  }

  lemma InvIsSound(s: Store, clock: int)
    requires Inv(s, clock)
    ensures Sound(s.tests, s.claims, clock)
  {
  }

  lemma {:induction false} RunAges(s: State, events: seq<Event>)
    requires Good(s)
    ensures AllAged(s.store.tests, Run(s, events).store.tests)
    decreases |events|
  {
    hide Good, Next;
    if events != [] {
      var next := Next(s, events[0]);
      NextAges(s, events[0]);
      NextKeepsGood(s, events[0]);
      RunAges(next, events[1..]);
      hide AllAged;
      AgedOften(s.store.tests, next.store.tests, Run(s, events).store.tests);
    }
  }

  /**
   Over any part of any run, whoever the callers are, tests are never forgotten, keep who and what they are
   for, and once ended only expire.
   */
  lemma EndedTestsOnlyExpire(callers: Callers, before: seq<Event>, after: seq<Event>)
    ensures AllAged(Run(Init(callers), before).store.tests, Run(Run(Init(callers), before), after).store.tests)
  {
    hide Good, Run, AllAged;
    InitIsGood(callers);
    RunKeepsGood(Init(callers), before);
    RunAges(Run(Init(callers), before), after);
  }
}
