/** The in-memory connection repository (control-plane/connection/memory/repository.go). */
module ConnectionRepository {
  import opened Outcomes
  import opened Connections
  import opened ConnectionStore
  import opened ConnectionInvariants
  import opened ConnectionTests
  import Keyset

  // ----- counting over a map

  function Among(tests: Tests, done: set<string>, which: Selector): set<string> {
    set op | op in done && op in tests && which.Selects(tests[op])
  }

  lemma CountStep(tests: Tests, done: set<string>, op: string, which: Selector)
    requires op in tests && op !in done
    ensures |Among(tests, done + {op}, which)| ==
      |Among(tests, done, which)| + if which.Selects(tests[op]) then 1 else 0
  {
    hide Selector.Selects;
    assert Among(tests, done + {op}, which) ==
      Among(tests, done, which) + if which.Selects(tests[op]) then {op} else {};
  }

  lemma CountsAll(tests: Tests, which: Selector)
    ensures Among(tests, {}, which) == {} && Among(tests, tests.Keys, which) == Selected(tests, which)
  {
  }

  /** The claim order is strict, and total on the tests there are. */
  lemma SoonerIsOrder(tests: Tests, some: set<string>)
    requires some <= tests.Keys
    ensures Keyset.StrictOrder((a, b) => Sooner(tests, a, b))
    ensures Keyset.TotalOn((a, b) => Sooner(tests, a, b), some)
  {
    forall a: string
      ensures !Sooner(tests, a, a)
    {
      Keyset.LessIsIrreflexive(a);
    }
    forall a: string, b: string, c: string | Sooner(tests, a, b) && Sooner(tests, b, c)
      ensures Sooner(tests, a, c)
    {
      if tests[a].createdAt == tests[b].createdAt == tests[c].createdAt {
        Keyset.LessIsTransitive(a, b, c);
      }
    }
    forall a, b | a in some && b in some
      ensures a == b || Sooner(tests, a, b) || Sooner(tests, b, a)
    {
      Keyset.LessIsTotal(a, b);
    }
  }

  lemma AuditedIfDue(s: Store, op: string, now: int)
    requires op in s.tests
    ensures |ExpireOne(s, op, now).audits| == |s.audits| + if Due(s.tests[op], now) then 1 else 0
  {
  }

  lemma ListExtends(all: set<string>, order: seq<string>, op: string)
    requires ListsOnce(all, order) && op !in all
    ensures ListsOnce(all + {op}, order + [op])
  {
  }

  lemma WalkExtends(s: Store, all: set<string>, order: seq<string>, op: string, now: int)
    requires all <= s.tests.Keys && op in s.tests && op !in all && ListsOnce(all, order)
    ensures ListsOnce(all + {op}, order + [op])
    ensures ExpireEach(s, order, now).tests[op] == s.tests[op]
    ensures ExpireEach(s, order + [op], now) == ExpireOne(ExpireEach(s, order, now), op, now)
  {
    ListExtends(all, order, op);
    assert (order + [op])[..|order|] == order;
    PartialWalk(s, all, order, now);
    hide ExpireOne, Passed, Due, ReleasedIn;
  }

  /** The claimed part of a list grows by one test. */
  lemma NextOfList(ids: seq<string>, i: nat)
    requires ListsOnce(SetOf(ids), ids) && i < |ids|
    ensures SetOf(ids[..i + 1]) == SetOf(ids[..i]) + {ids[i]} && ids[i] !in SetOf(ids[..i])
    ensures forall k :: 0 <= k < i ==> ids[k] in SetOf(ids[..i])
  {
    assert ids[..i + 1] == ids[..i] + [ids[i]];
  }

  lemma ClaimEachInTwo(s: Store, ids: seq<string>, i: nat, r: ClaimRequest)
    requires i < |ids| && SetOf(ids[..i + 1]) <= s.tests.Keys
    ensures SetOf(ids[..i]) <= s.tests.Keys && ids[i] in s.tests
    ensures ClaimOne(ClaimEach(s, ids[..i], r), ids[i], r) == ClaimEach(s, ids[..i + 1], r)
  {
    assert ids[..i + 1][..i] == ids[..i];
    assert forall op :: op in ids[..i] ==> op in ids[..i + 1];
    assert ids[i] in SetOf(ids[..i + 1]);
  }

  /** A test not handed out yet can be claimed. */
  lemma NextIsAvailable(s: Store, t: Store, done: set<string>, op: string, r: ClaimRequest)
    requires HandedOut(s, t, done, r) && Inv(t, r.now) && op in s.tests && s.tests[op].IsActive() && op !in done
    ensures op in t.tests && Available(t, t.tests[op])
  {
    hide Inv, Claimed, ClaimedIn;
    assert t.tests[op] == s.tests[op];
    ActiveIsAvailable(t, op, r.now);
  }

  /** A test just handed out makes valid work, if contents agree. */
  lemma LastIsWork(s: Store, t: Store, done: set<string>, op: string, r: ClaimRequest)
    requires HandedOut(s, t, done, r) && Inv(t, r.now) && op in s.tests && op in done && 0 < r.now && r.Valid()
    ensures op in t.tests && op in t.claims && Available(t, t.tests[op]) && (Exact(t) ==> WorkOf(t, op).Valid())
  {
    hide Inv, Exact;
    assert t.tests[op] == Claimed(s.tests[op], r.now);
    assert op in t.claims && t.claims[op].leaseExpiresAt == r.now + r.lease;
    hide TestWork.Valid, Available, WorkOf, ClaimedIn, RunningIn;
    WorkIsValid(t, op, r.now);
  }

  lemma SameUnlessNext(s: Store, t: Store, after: Store, done: set<string>, op: string, r: ClaimRequest)
    requires HandedOut(s, t, done, r) && HandedOut(s, after, done + {op}, r) && done <= s.tests.Keys
    ensures t.tests.Keys == after.tests.Keys == s.tests.Keys && forall x :: x in done ==> after.tests[x] == t.tests[x]
  {
    hide Claimed, ClaimedIn;
  }

  /** Claiming the next test of a batch finds its generation, and leaves the tests claimed before as they are. */
  lemma NextClaim(s: Store, ids: seq<string>, i: nat, r: ClaimRequest)
    requires Inv(s, r.now) && r.Valid() && 0 < r.now && IsBatch(s, r, ids) && i < |ids|
    ensures SetOf(ids[..i]) <= s.tests.Keys && SetOf(ids[..i + 1]) <= s.tests.Keys
    ensures ids[i] in s.tests && Available(ClaimEach(s, ids[..i], r), ClaimEach(s, ids[..i], r).tests[ids[i]])
    ensures ClaimOne(ClaimEach(s, ids[..i], r), ids[i], r) == ClaimEach(s, ids[..i + 1], r)
    ensures var after := ClaimEach(s, ids[..i + 1], r);
      && ids[i] in after.claims && Available(after, after.tests[ids[i]])
      && (Exact(s) ==> WorkOf(after, ids[i]).Valid())
    ensures forall k :: 0 <= k < i ==>
      ids[k] in s.tests && ClaimEach(s, ids[..i + 1], r).tests[ids[k]] == ClaimEach(s, ids[..i], r).tests[ids[k]]
  {
    ClaimingKeepsInv(s, r, ids, i);
    ClaimingKeepsInv(s, r, ids, i + 1);
    BatchIsDistinct(s, r, ids);
    NextOfList(ids, i);
    ClaimEachInTwo(s, ids, i, r);
    assert ids[i] in SetOf(ids);
    hide IsBatch, Inv, Exact, ClaimEach, ClaimOne, TestWork.Valid, WorkOf, SetOf,
         HandedOut, Available, ListsOnce, AllLiveOn;
    var t, after, op := ClaimEach(s, ids[..i], r), ClaimEach(s, ids[..i + 1], r), ids[i];
    NextIsAvailable(s, t, SetOf(ids[..i]), op, r);
    LastIsWork(s, after, SetOf(ids[..i + 1]), op, r);
    SameUnlessNext(s, t, after, SetOf(ids[..i]), op, r);
  }

  lemma NoneOf(s: Store, ids: seq<string>, r: ClaimRequest)
    ensures SetOf(ids[..0]) == {} && ClaimEach(s, ids[..0], r) == s
  {
  }

  /** A mutation's reply and the store it leaves. */
  predicate Mutates(before: Store, change: Result<Change>, after: Store, reply: Result<MutationResult>) {
    match change
    case Ok(c) => after == c.store && reply == Ok(c.result)
    case Err(e) => after == before && reply == Err(e)
  }

  class Repository {
    var connections: map<string, Connection>
    var uidIndex: map<string, string>
    var tests: Tests
    var generations: Generations
    var claims: Claims
    var idempotency: map<string, Remembered>
    var references: map<string, ReferenceCounts>
    var audits: seq<AuditEvent>
    var revision: nat

    function View(): Store
      reads this
    {
      Store(connections, uidIndex, tests, generations, claims, idempotency, references, audits, revision)
    }

    constructor ()
      ensures View() == EMPTY
    {
      connections, uidIndex, tests, generations, claims := map[], map[], map[], map[], map[];
      idempotency, references, audits, revision := map[], map[], [], 0;
    }

    method HasActive(uid: string) returns (found: bool)
      ensures found == HasActiveTest(tests, uid)
    {
      var rest := tests.Keys;
      while rest != {}
        invariant rest <= tests.Keys
        invariant forall op :: op in tests && op !in rest ==> !(tests[op].connectionUid == uid && tests[op].IsActive())
        decreases rest
      {
        var op :| op in rest;
        if tests[op].connectionUid == uid && tests[op].IsActive() {
          return true;
        }
        rest := rest - {op};
      }
      return false;
    }

    method TestLimitReached(candidate: TestOperation) returns (reached: bool)
      ensures reached == LimitExceeded(tests, candidate)
    {
      hide Among, Selected;
      var tenantActive, actorActive, connectionActive, tenantDaily := 0, 0, 0, 0;
      ghost var tenant, actor := OfTenant(candidate.tenantId), OfActor(candidate.tenantId, candidate.actorId);
      ghost var connection := OfConnection(candidate.tenantId, candidate.connectionUid);
      ghost var recent := Since(candidate.tenantId, candidate.createdAt - DAY);
      CountsAll(tests, tenant);
      CountsAll(tests, actor);
      CountsAll(tests, connection);
      CountsAll(tests, recent);
      var rest := tests.Keys;
      ghost var done: set<string> := {};
      while rest != {}
        invariant done <= tests.Keys && rest == tests.Keys - done
        invariant tenantActive == |Among(tests, done, tenant)| && actorActive == |Among(tests, done, actor)|
        invariant connectionActive == |Among(tests, done, connection)| && tenantDaily == |Among(tests, done, recent)|
        decreases rest
      {
        var op :| op in rest;
        var t := tests[op];
        CountStep(tests, done, op, tenant);
        CountStep(tests, done, op, actor);
        CountStep(tests, done, op, connection);
        CountStep(tests, done, op, recent);
        assert tenant.Selects(t) == (t.tenantId == candidate.tenantId && t.IsActive());
        assert actor.Selects(t) == (t.tenantId == candidate.tenantId && t.IsActive() && t.actorId == candidate.actorId);
        assert connection.Selects(t) ==
          (t.tenantId == candidate.tenantId && t.IsActive() && t.connectionUid == candidate.connectionUid);
        assert recent.Selects(t) == (t.tenantId == candidate.tenantId && t.createdAt >= candidate.createdAt - DAY);
        if t.tenantId == candidate.tenantId {
          if t.createdAt >= candidate.createdAt - DAY {
            tenantDaily := tenantDaily + 1;
          }
          if t.IsActive() {
            tenantActive := tenantActive + 1;
            if t.actorId == candidate.actorId {
              actorActive := actorActive + 1;
            }
            if t.connectionUid == candidate.connectionUid {
              connectionActive := connectionActive + 1;
            }
          }
        }
        rest, done := rest - {op}, done + {op};
      }
      assert done == tests.Keys;
      return tenantActive >= MAXIMUM_TENANT_ACTIVE_TESTS || actorActive >= MAXIMUM_ACTOR_ACTIVE_TESTS
          || connectionActive >= MAXIMUM_CONNECTION_ACTIVE_TESTS || tenantDaily >= MAXIMUM_TENANT_DAILY_TESTS;
    }

    /** The body of the reconciler's loop. */
    method ExpireTest(op: string, now: int) returns (due: bool)
      requires op in tests
      modifies this`tests, this`claims, this`audits
      ensures View() == ExpireOne(old(View()), op, now)
      ensures due == Due(old(tests)[op], now)
    {
      var t := tests[op];
      if t.state.Expired? {
        return false;
      }
      var startedAt := if t.startedAt.Some? then t.startedAt.value else t.createdAt;
      var action;
      if t.expiresAt <= now {
        t := t.(state := Expired, phase := NoPhase, resultCode := NoCode, success := false, remediationKey := "",
                startedAt := Some(startedAt));
        if t.completedAt.None? {
          t := t.(completedAt := Some(now));
        }
        action := "TEST_EXPIRE";
      } else if t.IsActive() && t.deadlineAt <= now {
        t := t.(state := TimedOut, resultCode := DeadlineExceeded, success := false,
                remediationKey := "connection.test.deadline", startedAt := Some(startedAt), completedAt := Some(now));
        if t.phase.NoPhase? {
          t := t.(phase := Policy);
        }
        action := "TEST_TIMEOUT";
      } else {
        return false;
      }
      audits := audits + [AuditEvent(t.tenantId, action, "service:connection-test-reconciler", op, Changed,
                                     OfTest(t.connectionUid, t.generation, NoCode))];
      tests := tests[op := t];
      claims := claims - {op};
      return true;
    }

    /** One pass of the reconciler; `order` is the order in which the map was walked. */
    method ExpireLocked(now: int) returns (count: int, ghost order: seq<string>)
      modifies this`tests, this`claims, this`audits
      ensures IsWalk(old(tests), order)
      ensures View() == ExpireEach(old(View()), order, now)
      ensures count == |DueTests(old(tests), now)|
    {
      count, order := 0, [];
      ghost var s := View();
      var rest := tests.Keys;
      while rest != {}
        invariant rest <= s.tests.Keys
        invariant ListsOnce(s.tests.Keys - rest, order)
        invariant View() == ExpireEach(s, order, now)
        invariant count == |audits| - |s.audits|
        decreases rest
      {
        hide Due, ExpireOne;
        var op :| op in rest;
        WalkExtends(s, s.tests.Keys - rest, order, op, now);
        ghost var before := View();
        AuditedIfDue(before, op, now);
        assert before.tests[op] == s.tests[op];
        var due := ExpireTest(op, now);
        if due {
          count := count + 1;
        }
        assert s.tests.Keys - (rest - {op}) == s.tests.Keys - rest + {op};
        order, rest := order + [op], rest - {op};
      }
      assert s.tests.Keys - rest == s.tests.Keys;
      WalkExpires(s, order, now);
    }

    method ExpireTests(now: int) returns (count: int, ghost order: seq<string>)
      modifies this
      ensures IsWalk(old(tests), order)
      ensures View() == AfterPass(old(View()), order, now)
      ensures count == |DueTests(old(tests), now)|
      ensures old(Inv(View(), now)) ==> Inv(View(), now)
      ensures old(Inv(View(), now) && Exact(View())) ==> Exact(View())
    {
      hide Exact;
      ghost var s := View();
      count, order := ExpireLocked(now);
      if count > 0 {
        revision := revision + 1;
      }
      if Inv(s, now) {
        PassKeepsInv(s, order, now);
      }
    }

    /** Claims one test and makes the work to hand out. */
    method ClaimTest(op: string, r: ClaimRequest) returns (result: Result<TestWork>)
      requires op in tests
      modifies this`tests, this`claims
      ensures !Available(old(View()), old(tests)[op]) ==> View() == old(View()) && result == Err(GenerationUnavailable)
      ensures Available(old(View()), old(tests)[op]) ==>
        && View() == ClaimOne(old(View()), op, r) && op in tests && op in claims && Available(View(), tests[op])
        && result == if WorkOf(View(), op).Valid() then Ok(WorkOf(View(), op)) else Err(Invalid)
      ensures result.Ok? ==> op in tests && result.value.operation == tests[op]
    {
      hide TestWork.Valid;
      var t := tests[op];
      if t.connectionUid !in generations || t.generation !in generations[t.connectionUid]
         || t.connectionUid !in uidIndex || uidIndex[t.connectionUid] !in connections {
        return Err(GenerationUnavailable);
      }
      var generation, stored := generations[t.connectionUid][t.generation], connections[uidIndex[t.connectionUid]];
      var startedAt := r.now;
      if t.startedAt.Some? {
        startedAt := t.startedAt.value;
      }
      t := t.(state := Running, phase := Policy, resultCode := NoCode, success := false, remediationKey := "",
              startedAt := Some(startedAt), completedAt := None);
      var claim := if op in claims then claims[op] else Claim("", 0, 0);
      claim := Claim(r.executorId, claim.attempt + 1, r.now + r.lease);
      claims := claims[op := claim];
      tests := tests[op := t];
      var work := TestWork(t, stored.connector, generation, claim.executorId, claim.attempt, claim.leaseExpiresAt);
      if !work.Valid() {
        return Err(Invalid);
      }
      return Ok(work);
    }

    /** The tests a claim takes: claimable ones, oldest first, up to the limit. */
    method ChooseTests(r: ClaimRequest) returns (ids: seq<string>)
      requires r.limit > 0
      ensures IsBatch(View(), r, ids)
    {
      var claimable: set<string> := {};
      var rest := tests.Keys;
      while rest != {}
        invariant rest <= tests.Keys
        invariant forall op :: op in claimable <==> op in tests && op !in rest && Claimable(View(), op, r.now)
        decreases rest
      {
        var op :| op in rest;
        var t := tests[op];
        var claim := if op in claims then claims[op] else Claim("", 0, 0);
        if t.state.Queued? || (t.state.Running? && claim.leaseExpiresAt <= r.now) {
          claimable := claimable + {op};
        }
        rest := rest - {op};
      }
      SoonerIsOrder(tests, claimable);
      var known := tests;
      ids := Keyset.FirstRows((a, b) => Sooner(known, a, b), claimable, r.limit);
      assert forall i, j :: 0 <= i < j < |ids| ==> Sooner(tests, ids[i], ids[j]);
    }

    /**
     Claims a batch, test by test. The captured generation is never missing; the loop stops, with the test
     in hand claimed already, at work that is not valid, which cannot happen while contents agree.
     */
    method HandOut(ids: seq<string>, r: ClaimRequest) returns (result: Result<seq<TestWork>>, ghost claimed: nat)
      requires Inv(View(), r.now) && r.Valid() && 0 < r.now && IsBatch(View(), r, ids)
      modifies this`tests, this`claims
      ensures claimed <= |ids| && SetOf(ids[..claimed]) <= old(tests).Keys
      ensures View() == ClaimEach(old(View()), ids[..claimed], r)
      ensures old(Exact(View())) ==> result.Ok?
      ensures result.Err? ==> result.error == Invalid && claimed > 0
      ensures result.Err? ==> ids[claimed - 1] in tests && ids[claimed - 1] in claims
      ensures result.Err? ==> Available(View(), tests[ids[claimed - 1]]) && !WorkOf(View(), ids[claimed - 1]).Valid()
      ensures result.Ok? ==> claimed == |ids| == |result.value|
      ensures result.Ok? ==> forall i :: 0 <= i < |ids| ==>
        result.value[i].Valid() && ids[i] in tests && result.value[i].operation == tests[ids[i]]
    {
      hide IsBatch, Inv, Exact, TestWork.Valid, WorkOf, ClaimOne, ClaimEach, Available;
      ghost var s := View();
      NoneOf(s, ids, r);
      var works: seq<TestWork> := [];
      var i := 0;
      while i < |ids|
        invariant 0 <= i == |works| <= |ids|
        invariant SetOf(ids[..i]) <= s.tests.Keys
        invariant View() == ClaimEach(s, ids[..i], r)
        invariant forall k :: 0 <= k < i ==> works[k].Valid() && ids[k] in tests && works[k].operation == tests[ids[k]]
      {
        NextClaim(s, ids, i, r);
        var work := ClaimTest(ids[i], r);
        if work.Err? {
          return Err(work.error), i + 1;
        }
        works := works + [work.value];
        i := i + 1;
      }
      assert ids[..i] == ids;
      return Ok(works), i;
    }

    /**
     Expires what is due, then claims a batch. `order` is the walk of the expiry pass, `ids` the batch and
     `claimed` how much of it was claimed: all of it, with valid work for every test, while contents agree.
     */
    method ClaimTests(r: ClaimRequest)
      returns (result: Result<seq<TestWork>>, ghost order: seq<string>, ghost ids: seq<string>, ghost claimed: nat)
      requires Inv(View(), r.now) && 0 < r.now
      modifies this
      ensures !r.Valid() ==> result == Err(Invalid) && View() == old(View())
      ensures r.Valid() ==> IsWalk(old(tests), order) && Inv(View(), r.now)
      ensures r.Valid() ==> IsBatch(ExpireEach(old(View()), order, r.now), r, ids)
      ensures r.Valid() ==> claimed <= |ids| && SetOf(ids[..claimed]) <= old(tests).Keys
      ensures r.Valid() ==> View() == AfterClaim(old(View()), order, ids, r, claimed, result.Ok?)
      ensures r.Valid() && old(Exact(View())) ==> result.Ok? && Exact(View())
      ensures result.Err? ==> result.error == Invalid
      ensures result.Ok? ==> claimed == |ids| == |result.value| && forall i :: 0 <= i < |ids| ==>
        result.value[i].Valid() && ids[i] in tests && result.value[i].operation == tests[ids[i]]
    {
      hide IsBatch, Inv, Exact, TestWork.Valid, SetOf, ClaimEach, ExpireEach, HandedOut, AllLiveOn;
      order, ids, claimed := [], [], 0;
      if !r.Valid() {
        return Err(Invalid), order, ids, claimed;
      }
      ghost var start := View();
      var count;
      count, order := ExpireLocked(r.now);
      ghost var s := View();
      ExpiryKeepsInv(start, order, r.now);
      var chosen := ChooseTests(r);
      ids := chosen;
      result, claimed := HandOut(chosen, r);
      ClaimKeepsInv(start, order, ids, r, claimed, result.Ok?);
      if result.Ok? && |result.value| > 0 {
        revision := revision + 1;
      }
    }

    method CompleteTest(op: string, executorId: string, c: Completion, now: int) returns (r: Result<TestOperation>)
      modifies this
      ensures match CompleteIn(old(View()), op, executorId, c, now)
              case Ok(s) => View() == s && op in tests && r == Ok(tests[op])
              case Err(e) => View() == old(View()) && r == Err(e)
      ensures old(Inv(View(), now)) ==> Inv(View(), now)
      ensures old(Inv(View(), now) && Exact(View())) ==> Exact(View())
    {
      hide Inv, Exact, Completion.Valid, TestOperation.Valid;
      if old(Inv(View(), now)) && CompleteIn(View(), op, executorId, c, now).Ok? {
        CompletionKeepsInv(View(), op, executorId, c, now);
      }
      if !c.Valid() || !IsExecutor(executorId) {
        return Err(Invalid);
      }
      var claim := if op in claims then claims[op] else Claim("", 0, 0);
      if op !in tests || !tests[op].state.Running? || claim.executorId != executorId
         || claim.leaseExpiresAt <= now || tests[op].deadlineAt <= now {
        return Err(TestLeaseLost);
      }
      var t := tests[op].(state := c.state, phase := c.phase, resultCode := c.resultCode, success := c.success,
                          remediationKey := c.remediationKey, completedAt := Some(now));
      if !t.Valid() {
        return Err(Invalid);
      }
      tests := tests[op := t];
      claims := claims - {op};
      revision := revision + 1;
      audits := audits + [AuditEvent(t.tenantId, "TEST_COMPLETE", "service:" + executorId, op, Changed,
                                     OfTest(t.connectionUid, t.generation, t.resultCode))];
      return Ok(t);
    }

    method CreateLocked(m: Mutation) returns (r: Result<MutationResult>)
      modifies this
      ensures Mutates(old(View()), CreateIn(old(View()), m), View(), r)
    {
      hide Connection.Valid;
      var key := m.tenantId + "\0" + m.name;
      if key in connections {
        return Err(AlreadyExists);
      }
      if m.candidate.None? || m.candidate.value.tenantId != m.tenantId || m.candidate.value.name != m.name {
        return Err(Invalid);
      }
      var candidate := m.candidate.value;
      if !candidate.Valid() {
        return Err(Invalid);
      }
      connections := connections[key := candidate];
      uidIndex := uidIndex[candidate.uid := key];
      generations := generations[candidate.uid := map[candidate.current.number := candidate.current]];
      return Ok(MutationResult(Some(candidate), None, None, Changed));
    }

    method UpdateLocked(m: Mutation, ghost clock: int) returns (r: Result<MutationResult>)
      requires Inv(View(), clock)
      modifies this
      ensures Mutates(old(View()), UpdateIn(old(View()), m), View(), r)
    {
      hide Connection.Valid, Inv;
      var key := m.tenantId + "\0" + m.name;
      if key !in connections {
        return Err(NotFound);
      }
      var current := connections[key];
      if m.expectedVersion <= 0 || current.version != m.expectedVersion {
        return Err(Conflict);
      }
      if m.candidate.None? {
        return Err(Invalid);
      }
      var candidate := m.candidate.value;
      if candidate.uid != current.uid || candidate.tenantId != current.tenantId || candidate.name != current.name
         || candidate.connector != current.connector
         || (candidate.version != current.version && candidate.version != current.version + 1)
         || (candidate.current.number != current.current.number
             && candidate.current.number != current.current.number + 1) {
        return Err(Conflict);
      }
      if !candidate.Valid() {
        return Err(Invalid);
      }
      var outcome := Changed;
      if candidate.version == current.version {
        outcome := NoChange;
      }
      TargetIsStored(View(), m, clock);
      connections := connections[key := candidate];
      if candidate.current.number != current.current.number {
        generations := generations[
          current.uid := generations[current.uid][candidate.current.number := candidate.current]];
      }
      return Ok(MutationResult(Some(candidate), None, None, outcome));
    }

    method DeleteLocked(m: Mutation) returns (r: Result<MutationResult>)
      modifies this
      ensures Mutates(old(View()), DeleteIn(old(View()), m), View(), r)
    {
      hide HasActiveTest;
      var key := m.tenantId + "\0" + m.name;
      if key !in connections {
        return Err(NotFound);
      }
      var current := connections[key];
      if m.expectedVersion <= 0 || current.version != m.expectedVersion {
        return Err(Conflict);
      }
      var active := HasActive(current.uid);
      var counts := if current.uid in references then references[current.uid] else ReferenceCounts(0, 0, 0, 0);
      if current.state != Disabled || !counts.IsZero() || active {
        return Err(InUse);
      }
      connections := connections - {key};
      uidIndex := uidIndex - {current.uid};
      references := references - {current.uid};
      generations := generations - {current.uid};
      var tombstone := Tombstone(current.tenantId, current.name, current.uid, m.identity.occurredAt);
      return Ok(MutationResult(None, None, Some(tombstone), Changed));
    }

    method TestLocked(m: Mutation) returns (r: Result<MutationResult>)
      modifies this
      ensures Mutates(old(View()), TestIn(old(View()), m), View(), r)
    {
      hide TestOperation.Valid, LimitExceeded;
      var key := m.tenantId + "\0" + m.name;
      if key !in connections {
        return Err(NotFound);
      }
      var current := connections[key];
      if m.expectedVersion <= 0 || current.version != m.expectedVersion {
        return Err(Conflict);
      }
      if m.test.None? {
        return Err(Invalid);
      }
      var t := m.test.value;
      if !t.Valid() || t.connectionUid != current.uid || t.generation != current.current.number
         || t.actorId != m.identity.actorId {
        return Err(Invalid);
      }
      var reached := TestLimitReached(t);
      if reached {
        return Err(TestLimitExceeded);
      }
      tests := tests[t.operationId := t];
      return Ok(MutationResult(None, Some(t), None, Changed));
    }

    method ApplyLocked(m: Mutation, ghost clock: int) returns (r: Result<MutationResult>)
      requires Inv(View(), clock)
      modifies this
      ensures Mutates(old(View()), MutateIn(old(View()), m), View(), r)
    {
      hide Inv, CreateIn, UpdateIn, DeleteIn, TestIn;
      match m.kind {
        case Create => r := CreateLocked(m);
        case Delete => r := DeleteLocked(m);
        case Test => r := TestLocked(m);
        case Unsupported => r := Err(Invalid);
        case _ => r := UpdateLocked(m, clock);
      }
    }

    /** A refused mutation changes nothing; a repeated one gets the first reply again. */
    method ApplyMutation(m: Mutation, ghost clock: int) returns (r: Result<MutationResult>)
      requires Inv(View(), clock)
      modifies this
      ensures View() == Apply(old(View()), m).store && r == Apply(old(View()), m).reply
      ensures Minted(old(View()), m) ==> Inv(View(), clock)
      ensures Minted(old(View()), m) && Faithful(old(View()), m) && old(Exact(View())) ==> Exact(View())
    {
      hide Inv, Exact, Minted, Faithful, MutateIn, Identity.Valid;
      if Minted(View(), m) {
        ApplyKeepsInv(View(), m, clock);
      }
      if !m.identity.Valid() {
        return Err(Invalid);
      }
      var key := m.tenantId + "\0" + m.identity.actorId + "\0" + m.identity.method_ + "\0" + m.identity.keyFingerprint;
      if key in idempotency {
        if idempotency[key].digest != m.identity.requestDigest {
          return Err(IdempotencyReused);
        }
        return Ok(idempotency[key].result.(outcome := Replayed));
      }
      ghost var s := View();
      r := ApplyLocked(m, clock);
      if r.Ok? {
        assert revision == s.revision && audits == s.audits && idempotency == s.idempotency by {
          MutationsLeaveTheLog(s, m);
        }
        revision := revision + 1;
        audits := audits + [AuditEvent(m.tenantId, ActionOf(m.kind), m.identity.actorId, m.identity.requestId,
                                       r.value.outcome, Given(m.attributes))];
        idempotency := idempotency[key := Remembered(m.identity.requestDigest, r.value)];
      }
    }

    method SetReferenceCounts(uid: string, counts: ReferenceCounts)
      modifies this`references
      ensures View() == old(View()).(references := old(references)[uid := counts])
    {
      references := references[uid := counts];
    }
  }
}
