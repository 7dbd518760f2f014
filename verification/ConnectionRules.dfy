/**
 What each operation of the connection store accepts, and exactly what it does then, in terms of the request
 and the stored values alone (control-plane/connection/memory/repository.go).
 */
module ConnectionRules {
  import opened Outcomes
  import opened Connections
  import opened ConnectionStore
  import opened ConnectionInvariants
  import Keyset

  /** Stored under the tenant and the name, at the version the request names. */
  predicate StoredAt(s: Store, m: Mutation) {
    var key := m.tenantId + "\0" + m.name;
    key in s.connections && 0 < m.expectedVersion == s.connections[key].version
  }

  predicate SameTests(s: Store, t: Store) {
    t.tests == s.tests && t.claims == s.claims
  }

  /** A creation succeeds if and only if the name is free and the candidate is a valid connection of that name. */
  lemma CreationSucceedsIff(s: Store, m: Mutation)
    ensures var key := m.tenantId + "\0" + m.name;
      CreateIn(s, m).Ok? <==>
        && key !in s.connections && m.candidate.Some?
        && m.candidate.value.tenantId == m.tenantId && m.candidate.value.name == m.name && m.candidate.value.Valid()
    ensures m.tenantId + "\0" + m.name in s.connections ==> CreateIn(s, m) == Err(AlreadyExists)
    ensures CreateIn(s, m).Ok? ==>
      var c, key, t := m.candidate.value, m.tenantId + "\0" + m.name, CreateIn(s, m).value.store;
      && t.connections == s.connections[key := c] && t.uidIndex == s.uidIndex[c.uid := key]
      && t.generations == s.generations[c.uid := map[c.current.number := c.current]]
      && SameTests(s, t) && t.references == s.references
      && CreateIn(s, m).value.result == MutationResult(Some(c), None, None, Changed)
  {
    hide Connection.Valid;
  }

  /**
   An update succeeds if and only if the stored version is the one named and the candidate is a valid
   connection of the same identity at that version or the next, with that generation or the next. It is
   reported as a change if and only if the version rises.
   */
  lemma UpdateSucceedsIff(s: Store, m: Mutation)
    ensures UpdateIn(s, m).Ok? <==>
      && StoredAt(s, m) && m.candidate.Some?
      && var c, was := m.candidate.value, s.connections[m.tenantId + "\0" + m.name];
      && c.uid == was.uid && c.tenantId == was.tenantId && c.name == was.name && c.connector == was.connector
      && was.version <= c.version <= was.version + 1
      && was.current.number <= c.current.number <= was.current.number + 1 && c.Valid()
    ensures m.tenantId + "\0" + m.name !in s.connections ==> UpdateIn(s, m) == Err(NotFound)
    ensures m.tenantId + "\0" + m.name in s.connections && !StoredAt(s, m) ==> UpdateIn(s, m) == Err(Conflict)
    ensures UpdateIn(s, m).Ok? ==>
      var c, key, t := m.candidate.value, m.tenantId + "\0" + m.name, UpdateIn(s, m).value.store;
      && t.connections == s.connections[key := c] && t.uidIndex == s.uidIndex
      && SameTests(s, t) && t.references == s.references
      && UpdateIn(s, m).value.result ==
           MutationResult(Some(c), None, None, if c.version == m.expectedVersion then NoChange else Changed)
      && (forall uid :: uid != c.uid ==> RecordedIn(t.generations, uid) == RecordedIn(s.generations, uid))
      && RecordedIn(t.generations, c.uid) ==
           if c.current.number == s.connections[key].current.number then RecordedIn(s.generations, c.uid)
           else RecordedIn(s.generations, c.uid)[c.current.number := c.current]
  {
    hide Connection.Valid;
  }

  /**
   A deletion succeeds if and only if the stored version is the one named, the connection is disabled, all its
   reference counts are zero and none of its tests is queued or running.
   */
  lemma DeletionSucceedsIff(s: Store, m: Mutation)
    ensures DeleteIn(s, m).Ok? <==>
      && StoredAt(s, m)
      && var was := s.connections[m.tenantId + "\0" + m.name];
      && was.state == Disabled
      && (was.uid in s.references ==> s.references[was.uid] == ReferenceCounts(0, 0, 0, 0))
      && forall op :: op in s.tests && s.tests[op].connectionUid == was.uid ==>
           s.tests[op].state != Queued && s.tests[op].state != Running
    ensures m.tenantId + "\0" + m.name !in s.connections ==> DeleteIn(s, m) == Err(NotFound)
    ensures m.tenantId + "\0" + m.name in s.connections && !StoredAt(s, m) ==> DeleteIn(s, m) == Err(Conflict)
    ensures StoredAt(s, m) && DeleteIn(s, m).Err? ==> DeleteIn(s, m) == Err(InUse)
    ensures DeleteIn(s, m).Ok? ==>
      var key, t := m.tenantId + "\0" + m.name, DeleteIn(s, m).value.store;
      var was := s.connections[key];
      && t.connections == s.connections - {key} && t.uidIndex == s.uidIndex - {was.uid}
      && t.generations == s.generations - {was.uid} && t.references == s.references - {was.uid} && SameTests(s, t)
      && DeleteIn(s, m).value.result == MutationResult(None, None,
           Some(Tombstone(was.tenantId, was.name, was.uid, m.identity.occurredAt)), Changed)
  {
    assert ReferenceCounts(0, 0, 0, 0).IsZero();
  }

  // ----- admission of tests

  /** A test of the stored connection at its current generation, asked for by the caller. */
  predicate TestFits(s: Store, m: Mutation) {
    && StoredAt(s, m) && m.test.Some? && m.test.value.Valid() && m.test.value.actorId == m.identity.actorId
    && m.test.value.connectionUid == s.connections[m.tenantId + "\0" + m.name].uid
    && m.test.value.generation == s.connections[m.tenantId + "\0" + m.name].current.number
  }

  /** The tests of the tenant that are queued or running. */
  function ActiveTests(tests: Tests, tenantId: string): set<string> {
    set op | op in tests && tests[op].tenantId == tenantId && (tests[op].state == Queued || tests[op].state == Running)
  }

  lemma ActiveOfTenant(tests: Tests, t: TestOperation)
    ensures Selected(tests, OfTenant(t.tenantId)) == ActiveTests(tests, t.tenantId)
    ensures Selected(tests, OfActor(t.tenantId, t.actorId)) ==
      set op | op in ActiveTests(tests, t.tenantId) && tests[op].actorId == t.actorId
    ensures Selected(tests, OfConnection(t.tenantId, t.connectionUid)) ==
      set op | op in ActiveTests(tests, t.tenantId) && tests[op].connectionUid == t.connectionUid
  {
  }

  lemma RecentOfTenant(tests: Tests, t: TestOperation)
    ensures Selected(tests, Since(t.tenantId, t.createdAt - 86_400_000_000_000)) ==
      set op | op in tests && tests[op].tenantId == t.tenantId
               && t.createdAt - 86_400_000_000_000 <= tests[op].createdAt
  {
  }

  /** The limits: 8 active tests of the tenant, 2 of the actor, 1 on the connection, 100 in the last 24 hours. */
  ghost predicate Full(tests: Tests, t: TestOperation) {
    || |ActiveTests(tests, t.tenantId)| >= 8
    || |set op | op in ActiveTests(tests, t.tenantId) && tests[op].actorId == t.actorId| >= 2
    || |set op | op in ActiveTests(tests, t.tenantId) && tests[op].connectionUid == t.connectionUid| >= 1
    || |set op | op in tests && tests[op].tenantId == t.tenantId
                 && t.createdAt - 86_400_000_000_000 <= tests[op].createdAt| >= 100
  }

  lemma FullIff(tests: Tests, t: TestOperation)
    ensures LimitExceeded(tests, t) <==> Full(tests, t)
  {
    hide Selected, ActiveTests;
    ActiveOfTenant(tests, t);
    RecentOfTenant(tests, t);
  }

  /** Of the tests that fit, exactly those are refused whose tenant, actor or connection has reached a limit. */
  lemma TestIsAdmittedIff(s: Store, m: Mutation)
    ensures TestIn(s, m).Ok? <==> TestFits(s, m) && !Full(s.tests, m.test.value)
    ensures TestIn(s, m) == Err(TestLimitExceeded) <==> TestFits(s, m) && Full(s.tests, m.test.value)
    ensures TestIn(s, m).Ok? ==>
      var t := TestIn(s, m).value;
      && t.store == s.(tests := s.tests[m.test.value.operationId := m.test.value])
      && t.result == MutationResult(None, m.test, None, Changed)
  {
    hide LimitExceeded, Full, TestOperation.Valid;
    if m.test.Some? {
      FullIff(s.tests, m.test.value);
    }
  }

  // ----- what every effect leaves behind

  /** A mutation takes effect if and only if it names its caller properly, its key is new and the store accepts it. */
  lemma TakesEffectIff(s: Store, m: Mutation)
    ensures TakesEffect(s, m) <==>
      && IsActor(m.identity.actorId) && IsMethod(m.identity.method_)
      && IsRevision(m.identity.keyFingerprint) && IsRevision(m.identity.requestDigest)
      && IsRequestId(m.identity.requestId) && IsRequestId(m.identity.auditEventId) && m.identity.occurredAt != 0
      && IdempotencyKey(m) !in s.idempotency
      && match m.kind
         case Create => CreateIn(s, m).Ok?
         case Test => TestIn(s, m).Ok?
         case Delete => DeleteIn(s, m).Ok?
         case Unsupported => false
         case _ => UpdateIn(s, m).Ok?
  {
    hide CreateIn, UpdateIn, DeleteIn, TestIn, IdempotencyKey;
  }

  /**
   A mutation that takes effect raises the revision by one, adds one audit event that names the caller and what
   was done, and remembers its reply under its key; one that does not leaves the store as it was.
   */
  lemma EffectIsRecorded(s: Store, m: Mutation)
    ensures TakesEffect(s, m) ==>
      var t, reply := Apply(s, m).store, Apply(s, m).reply;
      && reply.Ok? && reply == Ok(MutateIn(s, m).value.result)
      && t.revision == s.revision + 1 && |t.audits| == |s.audits| + 1 && s.audits <= t.audits
      && var audit := t.audits[|s.audits|];
      && audit.tenantId == m.tenantId && audit.actorId == m.identity.actorId
      && audit.requestId == m.identity.requestId && audit.outcome == reply.value.outcome
      && audit.attributes == Given(m.attributes)
      && (audit.action == "CREATE" <==> m.kind == Create) && (audit.action == "UPDATE" <==> m.kind == Update)
      && (audit.action == "ROTATE" <==> m.kind == RotateSecret) && (audit.action == "ENABLE" <==> m.kind == Enable)
      && (audit.action == "DISABLE" <==> m.kind == Disable) && (audit.action == "DELETE" <==> m.kind == Delete)
      && (audit.action == "TEST" <==> m.kind == Test)
      && t.idempotency == s.idempotency[IdempotencyKey(m) := Remembered(m.identity.requestDigest, reply.value)]
    ensures !TakesEffect(s, m) ==> Apply(s, m).store == s
    ensures !m.identity.Valid() ==> Apply(s, m).reply == Err(Invalid)
  {
    hide CreateIn, UpdateIn, DeleteIn, TestIn, Identity.Valid, IdempotencyKey;
  }

  // ----- tests in the hands of executors

  /** Every other test and claim is as it was. */
  ghost predicate OthersStay(s: Store, t: Store, op: string) {
    && t.tests.Keys == s.tests.Keys && t.claims.Keys - {op} == s.claims.Keys - {op}
    && (forall other :: other in s.tests && other != op ==> t.tests[other] == s.tests[other])
    && (forall other :: other in s.claims && other != op ==> other in t.claims && t.claims[other] == s.claims[other])
  }

  /** A claim request names an executor, one to 64 tests, and a lease of at most five minutes. */
  lemma ClaimRequestIff(r: ClaimRequest)
    ensures r.Valid() <==> IsExecutor(r.executorId) && 1 <= r.limit <= 64 && 0 < r.lease <= 300_000_000_000
  {
  }

  /**
   A batch holds claimable tests: queued ones, and running ones whose lease is over. A claimable test is left
   behind only if the batch is full, and then every test in it was created before, or at the same time with a
   smaller identifier. That is also the order of the batch.
   */
  lemma BatchIsOldest(s: Store, r: ClaimRequest, ids: seq<string>, op: string)
    requires IsBatch(s, r, ids) && op in s.tests
    ensures var claimable := s.tests[op].state == Queued
        || (s.tests[op].state == Running && (op in s.claims ==> s.claims[op].leaseExpiresAt <= r.now)
            && (op !in s.claims ==> 0 <= r.now));
      && (op in ids ==> claimable)
      && (claimable && op !in ids ==>
            |ids| == r.limit && forall i :: 0 <= i < |ids| ==> ids[i] in s.tests && Older(s.tests, ids[i], op))
      && forall i, j :: 0 <= i < j < |ids| ==> ids[i] in s.tests && ids[j] in s.tests && Older(s.tests, ids[i], ids[j])
  {
    assert op in ids || !Claimable(s, op, r.now) || forall other :: other in ids ==> Sooner(s.tests, other, op);
    assert forall i :: 0 <= i < |ids| ==> ids[i] in ids;
  }

  predicate Older(tests: Tests, a: string, b: string)
    requires a in tests && b in tests
  {
    && tests[a].createdAt <= tests[b].createdAt
    && (tests[a].createdAt == tests[b].createdAt ==> Keyset.Less(a, b))
  }

  /** A claimed test is running for the executor until the lease ends, one attempt more. */
  lemma ClaimStarts(s: Store, op: string, r: ClaimRequest)
    requires op in s.tests
    ensures var t := ClaimOne(s, op, r);
      && OthersStay(s, t, op)
      && t.tests[op].state == Running && t.tests[op].phase == Policy && t.tests[op].completedAt == None
      && t.tests[op].resultCode == NoCode && !t.tests[op].success && t.tests[op].remediationKey == ""
      && t.tests[op].startedAt == (if s.tests[op].startedAt.None? then Some(r.now) else s.tests[op].startedAt)
      && op in t.claims && t.claims[op].executorId == r.executorId && t.claims[op].leaseExpiresAt == r.now + r.lease
      && t.claims[op].attempt == (if op in s.claims then s.claims[op].attempt + 1 else 1)
  {
  }

  /**
   A completion is stored if and only if it is valid and comes from the executor that holds the running test,
   before its lease and before the deadline; the stored test then carries the completion's result.
   */
  lemma CompletionSucceedsIff(s: Store, op: string, executorId: string, c: Completion, now: int)
    requires Sound(s.tests, s.claims, now)
    ensures CompleteIn(s, op, executorId, c, now).Ok? <==>
      && c.Valid() && IsExecutor(executorId) && op in s.tests && s.tests[op].state == Running && op in s.claims
      && s.claims[op].executorId == executorId && now < s.claims[op].leaseExpiresAt && now < s.tests[op].deadlineAt
    ensures !c.Valid() || !IsExecutor(executorId) ==> CompleteIn(s, op, executorId, c, now) == Err(Invalid)
    ensures c.Valid() && IsExecutor(executorId) && CompleteIn(s, op, executorId, c, now).Err? ==>
      CompleteIn(s, op, executorId, c, now) == Err(TestLeaseLost)
    ensures CompleteIn(s, op, executorId, c, now).Ok? ==>
      var t := CompleteIn(s, op, executorId, c, now).value;
      && OthersStay(s, t, op) && op !in t.claims
      && t.tests[op].state == c.state && t.tests[op].phase == c.phase && t.tests[op].resultCode == c.resultCode
      && t.tests[op].success == c.success && t.tests[op].remediationKey == c.remediationKey
      && t.tests[op].completedAt == Some(now) && t.tests[op].startedAt == s.tests[op].startedAt
      && t.revision == s.revision + 1 && |t.audits| == |s.audits| + 1 && s.audits <= t.audits
      && t.connections == s.connections && t.generations == s.generations && t.uidIndex == s.uidIndex
  {
    hide TestOperation.Valid, Completion.Valid;
    if op in s.tests {
      assert SoundTest(op, s.tests[op], now);
      if c.Valid() && s.tests[op].state.Running? {
        CompletedIsValid(s.tests[op], c, now);
      }
    }
  }

  lemma CompletedIsValid(t: TestOperation, c: Completion, now: int)
    requires t.Valid() && t.state.Running? && t.startedAt.value <= now && c.Valid()
    ensures t.(state := c.state, phase := c.phase, resultCode := c.resultCode, success := c.success,
      remediationKey := c.remediationKey, completedAt := Some(now)).Valid()
  {
  }

  /**
   A test after an expiry pass: expired if its retention is over, timed out if it was still active at its
   deadline, otherwise as it was. What expires or times out keeps when it was created and started.
   */
  lemma PassDecides(t: TestOperation, now: int)
    ensures var u := Passed(t, now);
      && (t.expiresAt <= now ==> u.state == Expired)
      && (t.expiresAt <= now && t.state != Expired ==>
            && u.phase == NoPhase && u.resultCode == NoCode && u.remediationKey == ""
            && u.completedAt == (if t.completedAt == None then Some(now) else t.completedAt))
      && (now < t.expiresAt && t.deadlineAt <= now && (t.state == Queued || t.state == Running) ==>
            && u.state == TimedOut && u.resultCode == DeadlineExceeded && u.completedAt == Some(now)
            && u.remediationKey == "connection.test.deadline"
            && u.phase == (if t.phase == NoPhase then Policy else t.phase))
      && (now < t.expiresAt && (now < t.deadlineAt || (t.state != Queued && t.state != Running)) ==> u == t)
      && (t.state == Expired ==> u == t)
      && (u != t ==> u.startedAt == (if t.startedAt.None? then Some(t.createdAt) else t.startedAt) && !u.success)
      && u.createdAt == t.createdAt && u.deadlineAt == t.deadlineAt && u.expiresAt == t.expiresAt
  {
  }

  /** A test that the pass changes loses its claim and is audited, once; one that it does not is left alone. */
  lemma PassIsAudited(s: Store, op: string, now: int)
    requires op in s.tests
    ensures var t, u := s.tests[op], ExpireOne(s, op, now);
      if t.state != Expired
         && (t.expiresAt <= now || ((t.state == Queued || t.state == Running) && t.deadlineAt <= now)) then
        && OthersStay(s, u, op) && u.tests[op] == Passed(t, now) && op !in u.claims
        && |u.audits| == |s.audits| + 1 && s.audits <= u.audits
        && u.audits[|s.audits|] == AuditEvent(t.tenantId, if t.expiresAt <= now then "TEST_EXPIRE" else "TEST_TIMEOUT",
             "service:connection-test-reconciler", op, Changed, OfTest(t.connectionUid, t.generation, NoCode))
        && u == s.(tests := u.tests, claims := u.claims, audits := u.audits)
      else u == s
  {
    hide Passed;
  }

  lemma CompletionIsAudited(s: Store, op: string, executorId: string, c: Completion, now: int)
    requires CompleteIn(s, op, executorId, c, now).Ok?
    ensures var t := CompleteIn(s, op, executorId, c, now).value;
      && op in s.tests && |t.audits| == |s.audits| + 1 && s.audits <= t.audits
      && t.audits[|s.audits|] == AuditEvent(s.tests[op].tenantId, "TEST_COMPLETE", "service:" + executorId, op, Changed,
           OfTest(s.tests[op].connectionUid, s.tests[op].generation, c.resultCode))
  {
    hide TestOperation.Valid, Completion.Valid;
  }
}
