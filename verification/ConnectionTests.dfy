/** What expiry, claiming and completion of connection tests do and keep. */
module ConnectionTests {
  import opened Connections
  import opened ConnectionStore
  import opened ConnectionInvariants
  import Keyset

  function SetOf(s: seq<string>): set<string> { set x | x in s }

  // ----- one test

  /** The remediation key of a timed-out test is a valid one. */
  lemma DeadlineKeyIsValid()
    ensures |"connection.test.deadline"| <= 128 && forall c :: c in "connection.test.deadline" ==> c !in "\0\r\n"
  {
  }

  lemma PassingLivesOn(op: string, t: TestOperation, now: int)
    requires SoundTest(op, t, now)
    ensures SoundTest(op, Passed(t, now), now) && LivesOn(t, Passed(t, now))
    ensures Passed(t, now).IsActive() ==> Passed(t, now) == t && now < t.deadlineAt
    ensures !t.IsActive() ==> Passed(t, now) == t || Passed(t, now).state.Expired?
  {
    hide TestOperation.ValidIdentity;
    DeadlineKeyIsValid();
    if Due(t, now) && now < t.expiresAt {
      assert Passed(t, now).ValidIdentity() by {
        SameIdentity(t, Passed(t, now));
      }
      DeadlineIsAfterCreation(t);
    } else if Due(t, now) {
      SameIdentity(t, Passed(t, now));
      DeadlineIsAfterCreation(t);
    }
  }

  lemma DeadlineIsAfterCreation(t: TestOperation)
    requires t.ValidIdentity()
    ensures t.createdAt < t.deadlineAt < t.expiresAt
  {
  }

  lemma SameIdentity(t: TestOperation, u: TestOperation)
    requires t.ValidIdentity() && LivesOn(t, u) && u.egressPolicy == t.egressPolicy
    ensures u.ValidIdentity()
  {
  }

  lemma ClaimingLivesOn(op: string, t: TestOperation, now: int)
    requires SoundTest(op, t, now) && t.IsActive()
    ensures SoundTest(op, Claimed(t, now), now) && LivesOn(t, Claimed(t, now)) && Claimed(t, now).state.Running?
  {
  }

  // ----- the expiry pass

  /** The fields that neither expiry nor claiming touches. */
  predicate SameBase(s: Store, r: Store) {
    && r.connections == s.connections && r.uidIndex == s.uidIndex && r.generations == s.generations
    && r.idempotency == s.idempotency && r.references == s.references && r.revision == s.revision
  }

  ghost predicate PassedIn(before: Tests, after: Tests, done: set<string>, now: int) {
    after.Keys == before.Keys &&
    forall op :: op in before ==> after[op] == if op in done then Passed(before[op], now) else before[op]
  }

  ghost predicate ReleasedIn(tests: Tests, before: Claims, after: Claims, done: set<string>, now: int) {
    && (forall op :: op in after <==> op in before && !(op in done && op in tests && Due(tests[op], now)))
    && (forall op :: op in after ==> after[op] == before[op])
  }

  /** The walk has passed the tests in `done`: expired where due, the rest as they were. */
  ghost predicate Walked(s: Store, r: Store, done: set<string>, now: int) {
    SameBase(s, r) && PassedIn(s.tests, r.tests, done, now) && ReleasedIn(s.tests, s.claims, r.claims, done, now)
  }

  lemma NotDuePasses(t: TestOperation, now: int)
    ensures !Due(t, now) ==> Passed(t, now) == t
  {
  }

  lemma PassedStep(before: Tests, after: Tests, done: set<string>, op: string, now: int)
    requires PassedIn(before, after, done, now) && op in before && op !in done
    ensures after[op] == before[op]
    ensures PassedIn(
      before, if Due(before[op], now) then after[op := Passed(before[op], now)] else after, done + {op}, now)
  {
    hide Passed, Due;
    NotDuePasses(before[op], now);
  }

  lemma ReleasedStep(tests: Tests, before: Claims, after: Claims, done: set<string>, op: string, now: int)
    requires ReleasedIn(tests, before, after, done, now) && op in tests && op !in done
    ensures ReleasedIn(tests, before, if Due(tests[op], now) then after - {op} else after, done + {op}, now)
  {
    hide Due;
  }

  lemma WalkStep(s: Store, r: Store, done: set<string>, op: string, now: int)
    requires Walked(s, r, done, now) && op in s.tests && op !in done
    ensures op in r.tests && r.tests[op] == s.tests[op]
    ensures Walked(s, ExpireOne(r, op, now), done + {op}, now)
  {
    PassedStep(s.tests, r.tests, done, op, now);
    hide Passed, Due, PassedIn, ReleasedIn;
    ReleasedStep(s.tests, s.claims, r.claims, done, op, now);
  }

  function DueIn(tests: Tests, done: set<string>, now: int): set<string> {
    set op | op in done && op in tests && Due(tests[op], now)
  }

  lemma DueStep(tests: Tests, done: set<string>, op: string, now: int)
    requires op !in done && op in tests
    ensures |DueIn(tests, done + {op}, now)| == |DueIn(tests, done, now)| + if Due(tests[op], now) then 1 else 0
  {
    hide Due;
    assert DueIn(tests, done + {op}, now) == DueIn(tests, done, now) + if Due(tests[op], now) then {op} else {};
  }

  lemma {:induction false} PartialWalk(s: Store, all: set<string>, order: seq<string>, now: int)
    requires ListsOnce(all, order) && all <= s.tests.Keys
    ensures Walked(s, ExpireEach(s, order, now), all, now)
    ensures |ExpireEach(s, order, now).audits| == |s.audits| + |DueIn(s.tests, all, now)|
    decreases |order|
  {
    if order == [] {
      assert all == {};
      assert DueIn(s.tests, all, now) == {};
    } else {
      var front, op := order[..|order| - 1], order[|order| - 1];
      FrontOfList(all, order);
      PartialWalk(s, all - {op}, front, now);
      var r := ExpireEach(s, front, now);
      assert ExpireEach(s, order, now) == ExpireOne(r, op, now);
      assert all - {op} + {op} == all;
      hide ExpireEach, Walked, Due, DueIn, Passed, ListsOnce;
      WalkStep(s, r, all - {op}, op, now);
      DueStep(s.tests, all - {op}, op, now);
    }
  }

  /** Whatever order the map is walked in, the pass ends with the same tests and claims. */
  lemma WalkExpires(s: Store, order: seq<string>, now: int)
    requires IsWalk(s.tests, order)
    ensures var r := ExpireEach(s, order, now);
      && SameBase(s, r)
      && r.tests == (map op | op in s.tests :: Passed(s.tests[op], now))
      && r.claims == s.claims - DueTests(s.tests, now)
      && |r.audits| == |s.audits| + |DueTests(s.tests, now)|
  {
    hide Passed, Due, ExpireEach;
    PartialWalk(s, s.tests.Keys, order, now);
    assert DueIn(s.tests, s.tests.Keys, now) == DueTests(s.tests, now);
  }

  lemma PassingKeepsSound(s: Store, now: int)
    requires Sound(s.tests, s.claims, now)
    ensures var after := map op | op in s.tests :: Passed(s.tests[op], now);
      Sound(after, s.claims - DueTests(s.tests, now), now) && AllLiveOn(s.tests, after)
  {
    hide Passed, Due, SoundTest, LivesOn;
    var after := map op | op in s.tests :: Passed(s.tests[op], now);
    forall op | op in s.tests
      ensures SoundTest(op, after[op], now) && LivesOn(s.tests[op], after[op])
      ensures after[op].state.Running? <==> s.tests[op].state.Running? && !Due(s.tests[op], now)
    {
      PassingLivesOn(op, s.tests[op], now);
      RunningUnlessDue(s.tests[op], now);
    }
  }

  lemma RunningUnlessDue(t: TestOperation, now: int)
    ensures Passed(t, now).state.Running? <==> t.state.Running? && !Due(t, now)
  {
  }

  /** Time passes. */
  lemma ClockKeepsInv(s: Store, clock: int, now: int)
    requires Inv(s, clock) && clock <= now
    ensures Inv(s, now)
  {
    hide Quotas, Indexed, Numbered, Present, TestOperation.Valid;
  }

  /** Tests may live on, with claims to match. */
  lemma LivingOnKeepsInv(s: Store, r: Store, clock: int)
    requires Inv(s, clock)
    requires r.connections == s.connections && r.uidIndex == s.uidIndex && r.generations == s.generations
    requires AllLiveOn(s.tests, r.tests) && Sound(r.tests, r.claims, clock)
    ensures Inv(r, clock) && (Exact(s) ==> Exact(r))
  {
    hide Indexed, Numbered, Recorded, Present, Captured, Quotas, Sound, AllLiveOn;
    LivingOnKeepsQuotas(s.tests, r.tests);
    LivingOnKeepsPresent(s.tests, r.tests, s.generations);
  }

  lemma ExpiryKeepsInv(s: Store, order: seq<string>, now: int)
    requires Inv(s, now) && IsWalk(s.tests, order)
    ensures Inv(ExpireEach(s, order, now), now) && AllLiveOn(s.tests, ExpireEach(s, order, now).tests)
    ensures Exact(s) ==> Exact(ExpireEach(s, order, now))
    ensures forall op :: op in s.tests && ExpireEach(s, order, now).tests[op].IsActive() ==>
      ExpireEach(s, order, now).tests[op] == s.tests[op] && now < s.tests[op].deadlineAt
  {
    hide ExpireEach, AllLiveOn, Quotas, Indexed, Numbered, Present, Exact, Passed, Due;
    WalkExpires(s, order, now);
    PassingKeepsSound(s, now);
    LivingOnKeepsInv(s, ExpireEach(s, order, now), now);
    forall op | op in s.tests && Passed(s.tests[op], now).IsActive()
      ensures Passed(s.tests[op], now) == s.tests[op] && now < s.tests[op].deadlineAt
    {
      PassingLivesOn(op, s.tests[op], now);
    }
  }

  // ----- claims

  ghost predicate RunningIn(before: Tests, after: Tests, done: set<string>, r: ClaimRequest) {
    after.Keys == before.Keys &&
    forall op :: op in before ==> after[op] == if op in done then Claimed(before[op], r.now) else before[op]
  }

  function NewClaim(claims: Claims, op: string, r: ClaimRequest): Claim {
    Claim(r.executorId, ClaimOf(claims, op).attempt + 1, r.now + r.lease)
  }

  ghost predicate ClaimedIn(before: Claims, after: Claims, done: set<string>, r: ClaimRequest) {
    && after.Keys == before.Keys + done
    && (forall op :: op in after ==> after[op] == if op in done then NewClaim(before, op, r) else ClaimOf(before, op))
  }

  /** The tests in `done` have been handed out, the rest are as they were. */
  ghost predicate HandedOut(s: Store, t: Store, done: set<string>, r: ClaimRequest) {
    SameBase(s, t) && t.audits == s.audits
    && RunningIn(s.tests, t.tests, done, r) && ClaimedIn(s.claims, t.claims, done, r)
  }

  lemma RunningStep(before: Tests, after: Tests, done: set<string>, op: string, r: ClaimRequest)
    requires RunningIn(before, after, done, r) && op in before && op !in done
    ensures after[op] == before[op]
    ensures RunningIn(before, after[op := Claimed(before[op], r.now)], done + {op}, r)
  {
    hide Claimed;
  }

  lemma ClaimedStep(before: Claims, after: Claims, done: set<string>, op: string, r: ClaimRequest)
    requires ClaimedIn(before, after, done, r) && op !in done
    ensures ClaimOf(after, op) == ClaimOf(before, op)
    ensures ClaimedIn(before, after[op := NewClaim(before, op, r)], done + {op}, r)
  {
  }

  lemma HandOutStep(s: Store, t: Store, done: set<string>, op: string, r: ClaimRequest)
    requires HandedOut(s, t, done, r) && op in s.tests && op !in done
    ensures op in t.tests && HandedOut(s, ClaimOne(t, op, r), done + {op}, r)
  {
    assert op in t.tests;
    hide Claimed, RunningIn, ClaimedIn, ClaimOf;
    RunningStep(s.tests, t.tests, done, op, r);
    ClaimedStep(s.claims, t.claims, done, op, r);
  }

  lemma {:induction false} ClaimsEach(s: Store, all: set<string>, ids: seq<string>, r: ClaimRequest)
    requires ListsOnce(all, ids) && all <= s.tests.Keys
    ensures HandedOut(s, ClaimEach(s, ids, r), all, r)
    decreases |ids|
  {
    if ids == [] {
      assert all == {};
    } else {
      var front, op := ids[..|ids| - 1], ids[|ids| - 1];
      FrontOfList(all, ids);
      ClaimsEach(s, all - {op}, front, r);
      var t := ClaimEach(s, front, r);
      assert ClaimEach(s, ids, r) == ClaimOne(t, op, r);
      assert all - {op} + {op} == all;
      hide HandedOut, ClaimEach, ClaimOne, ListsOnce;
      HandOutStep(s, t, all - {op}, op, r);
    }
  }

  lemma BatchIsDistinct(s: Store, r: ClaimRequest, ids: seq<string>)
    requires IsBatch(s, r, ids)
    ensures forall op :: op in SetOf(ids) ==> op in s.tests && s.tests[op].IsActive()
    ensures ListsOnce(SetOf(ids), ids)
  {
    forall i, j | 0 <= i < j < |ids|
      ensures ids[i] != ids[j]
    {
      assert Sooner(s.tests, ids[i], ids[j]);
      Keyset.LessIsIrreflexive(ids[i]);
    }
  }

  lemma ClaimsStayGood(before: Claims, after: Claims, done: set<string>, r: ClaimRequest)
    requires ClaimedIn(before, after, done, r) && r.Valid()
    requires forall op :: op in before ==> before[op].attempt > 0 && IsExecutor(before[op].executorId)
    ensures forall op :: op in after ==> after[op].attempt > 0 && IsExecutor(after[op].executorId)
  {
  }

  lemma RunningStaysSound(before: Tests, after: Tests, done: set<string>, r: ClaimRequest)
    requires RunningIn(before, after, done, r) && forall op :: op in before ==> SoundTest(op, before[op], r.now)
    requires forall op :: op in done ==> op in before && before[op].IsActive()
    ensures forall op :: op in after ==> SoundTest(op, after[op], r.now)
    ensures forall op :: op in after ==> (after[op].state.Running? <==> op in done || before[op].state.Running?)
    ensures AllLiveOn(before, after)
  {
    hide Claimed, SoundTest, LivesOn;
    forall op | op in before
      ensures SoundTest(op, after[op], r.now) && LivesOn(before[op], after[op])
      ensures after[op].state.Running? <==> op in done || before[op].state.Running?
    {
      if op in done {
        ClaimingLivesOn(op, before[op], r.now);
      } else {
        LivesOnAsItIs(before[op]);
      }
    }
  }

  lemma HandingOutKeepsSound(s: Store, t: Store, done: set<string>, r: ClaimRequest)
    requires Sound(s.tests, s.claims, r.now) && r.Valid() && HandedOut(s, t, done, r)
    requires forall op :: op in done ==> op in s.tests && s.tests[op].IsActive()
    ensures Sound(t.tests, t.claims, r.now) && AllLiveOn(s.tests, t.tests)
  {
    ClaimsStayGood(s.claims, t.claims, done, r);
    RunningStaysSound(s.tests, t.tests, done, r);
    assert t.claims.Keys == s.claims.Keys + done;
    hide RunningIn, ClaimedIn, SoundTest, LivesOn;
  }

  /** The first tests of a batch, claimed. */
  lemma ClaimingKeepsInv(s: Store, r: ClaimRequest, ids: seq<string>, i: nat)
    requires Inv(s, r.now) && r.Valid() && IsBatch(s, r, ids) && i <= |ids|
    ensures SetOf(ids[..i]) <= s.tests.Keys && HandedOut(s, ClaimEach(s, ids[..i], r), SetOf(ids[..i]), r)
    ensures Inv(ClaimEach(s, ids[..i], r), r.now) && AllLiveOn(s.tests, ClaimEach(s, ids[..i], r).tests)
    ensures Exact(s) ==> Exact(ClaimEach(s, ids[..i], r))
  {
    BatchIsDistinct(s, r, ids);
    hide IsBatch, Inv, Exact, HandedOut, AllLiveOn;
    assert forall op :: op in ids[..i] ==> op in ids;
    ClaimsEach(s, SetOf(ids[..i]), ids[..i], r);
    HandingOutKeepsInv(s, ClaimEach(s, ids[..i], r), SetOf(ids[..i]), r);
  }

  lemma HandingOutKeepsInv(s: Store, t: Store, done: set<string>, r: ClaimRequest)
    requires Inv(s, r.now) && r.Valid() && HandedOut(s, t, done, r)
    requires forall op :: op in done ==> op in s.tests && s.tests[op].IsActive()
    ensures Inv(t, r.now) && AllLiveOn(s.tests, t.tests) && (Exact(s) ==> Exact(t))
  {
    hide Quotas, Indexed, Numbered, Present, Exact, Sound, AllLiveOn;
    HandingOutKeepsSound(s, t, done, r);
    LivingOnKeepsInv(s, t, r.now);
  }

  lemma LivesOnAsItIs(t: TestOperation)
    ensures LivesOn(t, t)
  {
  }

  /** The captured generation is still there. */
  predicate Available(s: Store, t: TestOperation) {
    && t.connectionUid in s.generations && t.generation in s.generations[t.connectionUid]
    && t.connectionUid in s.uidIndex && s.uidIndex[t.connectionUid] in s.connections
  }

  /** The work handed out for a claimed test. */
  function WorkOf(s: Store, op: string): TestWork
    requires op in s.tests && op in s.claims && Available(s, s.tests[op])
  {
    var t := s.tests[op];
    TestWork(t, s.connections[s.uidIndex[t.connectionUid]].connector, s.generations[t.connectionUid][t.generation],
             s.claims[op].executorId, s.claims[op].attempt, s.claims[op].leaseExpiresAt)
  }

  /** No claim ever finds the captured generation missing. */
  lemma ActiveIsAvailable(s: Store, op: string, clock: int)
    requires Inv(s, clock) && op in s.tests && s.tests[op].IsActive()
    ensures Available(s, s.tests[op])
  {
    hide Quotas, Sound, Numbered, Connection.Valid;
    assert PresentFor(s.tests[op], s.generations);
  }

  /** The work for a running test is valid if and only if
     its descriptor revision is that of the generation it captured. */
  lemma WorkIsValid(s: Store, op: string, clock: int)
    requires Inv(s, clock) && op in s.tests && s.tests[op].state.Running?
    requires op in s.claims && s.claims[op].leaseExpiresAt != 0
    ensures Available(s, s.tests[op]) && (WorkOf(s, op).Valid() <==> CapturedFor(s.tests[op], s.generations))
    ensures Exact(s) ==> WorkOf(s, op).Valid()
  {
    hide Quotas;
    var t := s.tests[op];
    ActiveIsAvailable(s, op, clock);
    assert SoundTest(op, t, clock);
    assert PresentFor(t, s.generations);
    assert NumberedFor(s.connections[s.uidIndex[t.connectionUid]], s.generations);
    assert Exact(s) ==> CapturedFor(t, s.generations);
  }

  // ----- the two operations as a whole

  /** The store after an expiry pass, with a new revision if anything was due. */
  ghost function AfterPass(s: Store, order: seq<string>, now: int): Store
    requires IsWalk(s.tests, order)
  {
    var r := ExpireEach(s, order, now);
    if |DueTests(s.tests, now)| > 0 then r.(revision := r.revision + 1) else r
  }

  /**
   The store after a claim: expiry, then the tests of the batch that were claimed before the loop stopped,
   and a new revision if the whole batch was claimed and was not empty.
   */
  ghost function AfterClaim(
      s: Store, order: seq<string>, ids: seq<string>, r: ClaimRequest, claimed: nat, ok: bool): Store
    requires IsWalk(s.tests, order) && claimed <= |ids| && SetOf(ids[..claimed]) <= s.tests.Keys
  {
    var t := ClaimEach(ExpireEach(s, order, r.now), ids[..claimed], r);
    if !ok || ids == [] then t else t.(revision := t.revision + 1)
  }

  /** Not expired yet though its retention is over, or still active at its deadline. */
  predicate OverTime(t: TestOperation, now: int) {
    && t.state != Expired
    && (t.expiresAt <= now || (t.deadlineAt <= now && (t.state == Queued || t.state == Running)))
  }

  /** The revision rises by one if and only if some test was over its time. */
  lemma PassRevises(s: Store, order: seq<string>, now: int)
    requires IsWalk(s.tests, order)
    ensures var over := exists op :: op in s.tests && OverTime(s.tests[op], now);
      AfterPass(s, order, now).revision == s.revision + if over then 1 else 0
  {
    hide ExpireEach, Passed;
    WalkExpires(s, order, now);
    var due := DueTests(s.tests, now);
    if op :| op in s.tests && Due(s.tests[op], now) {
      assert op in due;
    } else {
      assert due == {};
    }
  }

  /** The revision rises by one if and only if a batch that is not empty was claimed and returned. */
  lemma ClaimRevises(s: Store, order: seq<string>, ids: seq<string>, r: ClaimRequest, claimed: nat, ok: bool)
    requires IsWalk(s.tests, order) && IsBatch(ExpireEach(s, order, r.now), r, ids)
    requires claimed <= |ids| && SetOf(ids[..claimed]) <= s.tests.Keys
    ensures AfterClaim(s, order, ids, r, claimed, ok).revision == s.revision + if ok && |ids| > 0 then 1 else 0
  {
    hide ExpireEach, Passed, ClaimEach;
    WalkExpires(s, order, r.now);
    BatchIsDistinct(ExpireEach(s, order, r.now), r, ids);
    hide IsBatch;
    ClaimsEach(ExpireEach(s, order, r.now), SetOf(ids[..claimed]), ids[..claimed], r);
  }

  lemma PassKeepsInv(s: Store, order: seq<string>, now: int)
    requires Inv(s, now) && IsWalk(s.tests, order)
    ensures Inv(AfterPass(s, order, now), now) && (Exact(s) ==> Exact(AfterPass(s, order, now)))
  {
    hide Inv, Exact, ExpireEach;
    ExpiryKeepsInv(s, order, now);
    InvReadsFive(ExpireEach(s, order, now), AfterPass(s, order, now), now);
  }

  lemma ClaimKeepsInv(s: Store, order: seq<string>, ids: seq<string>, r: ClaimRequest, claimed: nat, ok: bool)
    requires Inv(s, r.now) && r.Valid() && IsWalk(s.tests, order) && IsBatch(ExpireEach(s, order, r.now), r, ids)
    requires claimed <= |ids|
    ensures SetOf(ids[..claimed]) <= s.tests.Keys && Inv(AfterClaim(s, order, ids, r, claimed, ok), r.now)
    ensures Exact(s) ==> Exact(AfterClaim(s, order, ids, r, claimed, ok))
  {
    hide Inv, Exact, ExpireEach, ClaimEach, IsBatch, HandedOut, AllLiveOn;
    ExpiryKeepsInv(s, order, r.now);
    var passed := ExpireEach(s, order, r.now);
    ClaimingKeepsInv(passed, r, ids, claimed);
    InvReadsFive(ClaimEach(passed, ids[..claimed], r), AfterClaim(s, order, ids, r, claimed, ok), r.now);
  }

  // ----- completion

  lemma CompletionKeepsInv(s: Store, op: string, executorId: string, c: Completion, now: int)
    requires Inv(s, now) && CompleteIn(s, op, executorId, c, now).Ok?
    ensures Inv(CompleteIn(s, op, executorId, c, now).value, now)
    ensures AllLiveOn(s.tests, CompleteIn(s, op, executorId, c, now).value.tests)
    ensures !CompleteIn(s, op, executorId, c, now).value.tests[op].IsActive()
    ensures Exact(s) ==> Exact(CompleteIn(s, op, executorId, c, now).value)
  {
    hide Quotas, Indexed, Numbered, Present, Exact, Completion.Valid;
    var r := CompleteIn(s, op, executorId, c, now).value;
    assert r.tests[op].Valid() && r.tests[op].state == c.state && !r.tests[op].IsActive() by {
      CompletionEnds(c);
    }
    hide TestOperation.Valid;
    assert Sound(r.tests, r.claims, now);
    LivingOnKeepsInv(s, r, now);
  }

  lemma CompletionEnds(c: Completion)
    requires c.Valid()
    ensures !c.state.Queued? && !c.state.Running? && !c.state.Expired?
  {
  }
}
