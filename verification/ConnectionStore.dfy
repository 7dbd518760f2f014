/**
 The connection store (control-plane/connection/memory/repository.go) as a value: what each operation
 does to it, and what they all keep.
 */
module ConnectionStore {
  import opened Outcomes
  import opened Connections
  import Keyset

  datatype Kind = Create | Update | RotateSecret | Enable | Disable | Delete | Test | Unsupported

  datatype Identity = Identity(
    actorId: string, method_: string, keyFingerprint: string, requestDigest: string,
    requestId: string, auditEventId: string, occurredAt: int)
  {
    predicate Valid() {
      && IsActor(actorId) && IsMethod(method_) && IsRevision(keyFingerprint) && IsRevision(requestDigest)
      && IsRequestId(requestId) && IsRequestId(auditEventId) && occurredAt != 0
    }
  }

  datatype Mutation = Mutation(
    kind: Kind, tenantId: string, name: string, expectedVersion: int,
    candidate: Option<Connection>, test: Option<TestOperation>, identity: Identity, attributes: string)

  datatype Outcome = Changed | NoChange | Replayed

  datatype Tombstone = Tombstone(tenantId: string, name: string, uid: string, deletedAt: int)

  datatype MutationResult = MutationResult(
    connection: Option<Connection>, test: Option<TestOperation>, tombstone: Option<Tombstone>, outcome: Outcome)

  datatype Attributes = Given(text: string) | OfTest(connectionUid: string, generation: int, resultCode: ResultCode)

  datatype AuditEvent = AuditEvent(
    tenantId: string, action: string, actorId: string, requestId: string, outcome: Outcome, attributes: Attributes)

  datatype Remembered = Remembered(digest: string, result: MutationResult)

  datatype Claim = Claim(executorId: string, attempt: int, leaseExpiresAt: int)

  datatype ReferenceCounts = ReferenceCounts(jobs: int, executions: int, tests: int, cleanupObligations: int) {
    predicate IsZero() { jobs == 0 && executions == 0 && tests == 0 && cleanupObligations == 0 }
  }

  type Tests = map<string, TestOperation>
  type Claims = map<string, Claim>
  type Generations = map<string, map<int, Generation>>

  datatype Store = Store(
    connections: map<string, Connection>, uidIndex: map<string, string>, tests: Tests, generations: Generations,
    claims: Claims, idempotency: map<string, Remembered>, references: map<string, ReferenceCounts>,
    audits: seq<AuditEvent>, revision: nat)

  const EMPTY := Store(map[], map[], map[], map[], map[], map[], map[], [], 0)

  function ResourceKey(tenantId: string, name: string): string { tenantId + "\0" + name }

  // ----- admission limits

  datatype Selector =
    | OfTenant(tenantId: string)
    | OfActor(tenantId: string, actorId: string)
    | OfConnection(tenantId: string, connectionUid: string)
    | Since(tenantId: string, start: int)
    | Within(tenantId: string, start: int)
  {
    predicate Selects(t: TestOperation) {
      t.tenantId == tenantId &&
      match this
      case OfTenant(_) => t.IsActive()
      case OfActor(_, actorId) => t.IsActive() && t.actorId == actorId
      case OfConnection(_, connectionUid) => t.IsActive() && t.connectionUid == connectionUid
      case Since(_, start) => start <= t.createdAt
      case Within(_, start) => start <= t.createdAt <= start + DAY
    }

    function Limit(): Option<nat> {
      match this
      case OfTenant(_) => Some(MAXIMUM_TENANT_ACTIVE_TESTS)
      case OfActor(_, _) => Some(MAXIMUM_ACTOR_ACTIVE_TESTS)
      case OfConnection(_, _) => Some(MAXIMUM_CONNECTION_ACTIVE_TESTS)
      case Since(_, _) => None
      case Within(_, _) => Some(MAXIMUM_TENANT_DAILY_TESTS)
    }
  }

  function Selected(tests: Tests, which: Selector): set<string> {
    set op | op in tests && which.Selects(tests[op])
  }

  predicate LimitExceeded(tests: Tests, t: TestOperation) {
    || |Selected(tests, OfTenant(t.tenantId))| >= MAXIMUM_TENANT_ACTIVE_TESTS
    || |Selected(tests, OfActor(t.tenantId, t.actorId))| >= MAXIMUM_ACTOR_ACTIVE_TESTS
    || |Selected(tests, OfConnection(t.tenantId, t.connectionUid))| >= MAXIMUM_CONNECTION_ACTIVE_TESTS
    || |Selected(tests, Since(t.tenantId, t.createdAt - DAY))| >= MAXIMUM_TENANT_DAILY_TESTS
  }

  // ----- mutations

  datatype Change = Change(store: Store, result: MutationResult)

  function CreateIn(s: Store, m: Mutation): Result<Change> {
    var key := ResourceKey(m.tenantId, m.name);
    if key in s.connections then Err(AlreadyExists)
    else if m.candidate.None? || m.candidate.value.tenantId != m.tenantId
            || m.candidate.value.name != m.name then Err(Invalid)
    else
      var c := m.candidate.value;
      if !c.Valid() then Err(Invalid)
      else Ok(Change(
        s.(connections := s.connections[key := c], uidIndex := s.uidIndex[c.uid := key],
           generations := s.generations[c.uid := map[c.current.number := c.current]]),
        MutationResult(Some(c), None, None, Changed)))
  }

  /** The stored connection that a mutation with an expected version is about. */
  function Target(s: Store, m: Mutation): Result<Connection> {
    var key := ResourceKey(m.tenantId, m.name);
    if key !in s.connections then Err(NotFound)
    else if m.expectedVersion <= 0 || s.connections[key].version != m.expectedVersion then Err(Conflict)
    else Ok(s.connections[key])
  }

  predicate Succeeds(c: Connection, current: Connection) {
    && c.uid == current.uid && c.tenantId == current.tenantId && c.name == current.name
    && c.connector == current.connector
    && (c.version == current.version || c.version == current.version + 1)
    && (c.current.number == current.current.number || c.current.number == current.current.number + 1)
  }

  function RecordedIn(generations: Generations, uid: string): map<int, Generation> {
    if uid in generations then generations[uid] else map[]
  }

  function UpdateIn(s: Store, m: Mutation): Result<Change> {
    match Target(s, m)
    case Err(e) => Err(e)
    case Ok(current) =>
      if m.candidate.None? then Err(Invalid)
      else
        var c := m.candidate.value;
        if !Succeeds(c, current) then Err(Conflict)
        else if !c.Valid() then Err(Invalid)
        else
          var generations := if c.current.number == current.current.number then s.generations
            else s.generations[c.uid := RecordedIn(s.generations, c.uid)[c.current.number := c.current]];
          Ok(Change(s.(connections := s.connections[ResourceKey(m.tenantId, m.name) := c], generations := generations),
                    MutationResult(Some(c), None, None, if c.version == current.version then NoChange else Changed)))
  }

  predicate HasActiveTest(tests: Tests, uid: string) {
    exists op :: op in tests && tests[op].connectionUid == uid && tests[op].IsActive()
  }

  function ReferencesOf(s: Store, uid: string): ReferenceCounts {
    if uid in s.references then s.references[uid] else ReferenceCounts(0, 0, 0, 0)
  }

  function DeleteIn(s: Store, m: Mutation): Result<Change> {
    match Target(s, m)
    case Err(e) => Err(e)
    case Ok(current) =>
      if current.state != Disabled || !ReferencesOf(s, current.uid).IsZero()
         || HasActiveTest(s.tests, current.uid) then Err(InUse)
      else Ok(Change(
        s.(connections := s.connections - {ResourceKey(m.tenantId, m.name)}, uidIndex := s.uidIndex - {current.uid},
           references := s.references - {current.uid}, generations := s.generations - {current.uid}),
        MutationResult(None, None,
          Some(Tombstone(current.tenantId, current.name, current.uid, m.identity.occurredAt)), Changed)))
  }

  function TestIn(s: Store, m: Mutation): Result<Change> {
    match Target(s, m)
    case Err(e) => Err(e)
    case Ok(current) =>
      if m.test.None? then Err(Invalid)
      else
        var t := m.test.value;
        if !t.Valid() || t.connectionUid != current.uid || t.generation != current.current.number
           || t.actorId != m.identity.actorId then Err(Invalid)
        else if LimitExceeded(s.tests, t) then Err(TestLimitExceeded)
        else Ok(Change(s.(tests := s.tests[t.operationId := t]), MutationResult(None, Some(t), None, Changed)))
  }

  function MutateIn(s: Store, m: Mutation): Result<Change> {
    match m.kind
    case Create => CreateIn(s, m)
    case Delete => DeleteIn(s, m)
    case Test => TestIn(s, m)
    case Unsupported => Err(Invalid)
    case _ => UpdateIn(s, m)
  }

  lemma MutationsLeaveTheLog(s: Store, m: Mutation)
    requires MutateIn(s, m).Ok?
    ensures var t := MutateIn(s, m).value.store;
      t.revision == s.revision && t.audits == s.audits && t.idempotency == s.idempotency
  {
    hide LimitExceeded, HasActiveTest, Connection.Valid, TestOperation.Valid, Target;
    match m.kind {
      case Create =>
      case Delete =>
      case Test =>
      case _ =>
    }
  }

  function IdempotencyKey(m: Mutation): string {
    m.tenantId + "\0" + m.identity.actorId + "\0" + m.identity.method_ + "\0" + m.identity.keyFingerprint
  }

  function ActionOf(kind: Kind): string {
    match kind
    case Create => "CREATE" case Update => "UPDATE" case RotateSecret => "ROTATE" case Enable => "ENABLE"
    case Disable => "DISABLE" case Delete => "DELETE" case Test => "TEST" case Unsupported => ""
  }

  function Audited(m: Mutation, outcome: Outcome): AuditEvent {
    AuditEvent(m.tenantId, ActionOf(m.kind), m.identity.actorId, m.identity.requestId, outcome, Given(m.attributes))
  }

  /** The reply, and the store afterwards. */
  datatype Applied = Applied(store: Store, reply: Result<MutationResult>)

  /** Whether the mutation changes the store rather than being refused or replayed. */
  predicate TakesEffect(s: Store, m: Mutation) {
    m.identity.Valid() && IdempotencyKey(m) !in s.idempotency && MutateIn(s, m).Ok?
  }

  function Apply(s: Store, m: Mutation): Applied {
    if !m.identity.Valid() then Applied(s, Err(Invalid))
    else
      var key := IdempotencyKey(m);
      if key in s.idempotency then
        var before := s.idempotency[key];
        if before.digest != m.identity.requestDigest then Applied(s, Err(IdempotencyReused))
        else Applied(s, Ok(before.result.(outcome := Replayed)))
      else match MutateIn(s, m)
        case Err(e) => Applied(s, Err(e))
        case Ok(change) =>
          Applied(change.store.(
              revision := s.revision + 1, audits := s.audits + [Audited(m, change.result.outcome)],
              idempotency := s.idempotency[key := Remembered(m.identity.requestDigest, change.result)]),
            Ok(change.result))
  }

  // ----- expiry

  predicate Due(t: TestOperation, now: int) {
    !t.state.Expired? && (t.expiresAt <= now || (t.IsActive() && t.deadlineAt <= now))
  }

  function Started(t: TestOperation): int { if t.startedAt.Some? then t.startedAt.value else t.createdAt }

  /** A test after the expiry pass. */
  function Passed(t: TestOperation, now: int): TestOperation {
    if !Due(t, now) then t
    else if t.expiresAt <= now then
      t.(state := Expired, phase := NoPhase, resultCode := NoCode, success := false, remediationKey := "",
         startedAt := Some(Started(t)), completedAt := if t.completedAt.None? then Some(now) else t.completedAt)
    else
      t.(state := TimedOut, phase := if t.phase.NoPhase? then Policy else t.phase, resultCode := DeadlineExceeded,
         success := false, remediationKey := "connection.test.deadline",
         startedAt := Some(Started(t)), completedAt := Some(now))
  }

  function ExpiryEvent(op: string, t: TestOperation, now: int): AuditEvent {
    AuditEvent(t.tenantId, if t.expiresAt <= now then "TEST_EXPIRE" else "TEST_TIMEOUT",
               "service:connection-test-reconciler", op, Changed, OfTest(t.connectionUid, t.generation, NoCode))
  }

  function ExpireOne(s: Store, op: string, now: int): Store
    requires op in s.tests
  {
    var t := s.tests[op];
    if !Due(t, now) then s
    else s.(tests := s.tests[op := Passed(t, now)], claims := s.claims - {op},
            audits := s.audits + [ExpiryEvent(op, t, now)])
  }

  /** The expiry pass over some tests, in the order the map is walked. */
  function ExpireEach(s: Store, order: seq<string>, now: int): (r: Store)
    requires forall op :: op in order ==> op in s.tests
    ensures r.tests.Keys == s.tests.Keys
  {
    if order == [] then s else
    var before := ExpireEach(s, order[..|order| - 1], now);
    ExpireOne(before, order[|order| - 1], now)
  }

  ghost predicate ListsOnce(all: set<string>, order: seq<string>) {
    && (forall op :: op in order <==> op in all)
    && (forall i, j :: 0 <= i < j < |order| ==> order[i] != order[j])
  }

  lemma FrontOfList(all: set<string>, order: seq<string>)
    requires ListsOnce(all, order) && order != []
    ensures ListsOnce(all - {order[|order| - 1]}, order[..|order| - 1])
    ensures order[|order| - 1] in all
  {
    var front, last := order[..|order| - 1], order[|order| - 1];
    assert order == front + [last];
    assert last in order;
    forall op
      ensures op in front <==> op in all - {last}
    {
      assert op in order <==> op in front || op == last;
    }
  }

  /** One walk over the whole map. */
  ghost predicate IsWalk(tests: Tests, order: seq<string>) { ListsOnce(tests.Keys, order) }

  function DueTests(tests: Tests, now: int): set<string> {
    set op | op in tests && Due(tests[op], now)
  }

  // ----- claims

  function ClaimOf(claims: Claims, op: string): Claim {
    if op in claims then claims[op] else Claim("", 0, 0)
  }

  predicate Claimable(s: Store, op: string, now: int) {
    op in s.tests &&
    (s.tests[op].state.Queued? || (s.tests[op].state.Running? && ClaimOf(s.claims, op).leaseExpiresAt <= now))
  }

  datatype ClaimRequest = ClaimRequest(executorId: string, limit: int, lease: int, now: int) {
    predicate Valid() {
      IsExecutor(executorId) && 0 < limit <= MAXIMUM_TEST_CLAIM_BATCH && 0 < lease <= MAXIMUM_TEST_LEASE
    }
  }

  function Claimed(t: TestOperation, now: int): TestOperation {
    t.(state := Running, phase := Policy, resultCode := NoCode, success := false, remediationKey := "",
       startedAt := if t.startedAt.Some? then t.startedAt else Some(now), completedAt := None)
  }

  function ClaimOne(s: Store, op: string, r: ClaimRequest): Store
    requires op in s.tests
  {
    s.(tests := s.tests[op := Claimed(s.tests[op], r.now)],
       claims := s.claims[op := Claim(r.executorId, ClaimOf(s.claims, op).attempt + 1, r.now + r.lease)])
  }

  function ClaimEach(s: Store, ids: seq<string>, r: ClaimRequest): (result: Store)
    requires forall op :: op in ids ==> op in s.tests
    ensures result.tests.Keys == s.tests.Keys
  {
    if ids == [] then s else ClaimOne(ClaimEach(s, ids[..|ids| - 1], r), ids[|ids| - 1], r)
  }

  /** Oldest first, among equals the smaller identifier. */
  predicate Sooner(tests: Tests, a: string, b: string) {
    a in tests && b in tests &&
    (tests[a].createdAt < tests[b].createdAt || (tests[a].createdAt == tests[b].createdAt && Keyset.Less(a, b)))
  }

  /** What a claim hands out: the oldest claimable tests, up to the limit. */
  ghost predicate IsBatch(s: Store, r: ClaimRequest, ids: seq<string>) {
    && |ids| <= r.limit
    && (forall i, j :: 0 <= i < j < |ids| ==> Sooner(s.tests, ids[i], ids[j]))
    && (forall op :: op in ids ==> Claimable(s, op, r.now))
    && (forall op, other :: Claimable(s, op, r.now) && op !in ids && other in ids ==> Sooner(s.tests, other, op))
    && (|ids| < r.limit ==> forall op :: Claimable(s, op, r.now) ==> op in ids)
  }

  // ----- completion

  function CompleteIn(s: Store, op: string, executorId: string, c: Completion, now: int): Result<Store> {
    if !c.Valid() || !IsExecutor(executorId) then Err(Invalid)
    else if op !in s.tests || !s.tests[op].state.Running? || ClaimOf(s.claims, op).executorId != executorId
            || ClaimOf(s.claims, op).leaseExpiresAt <= now || s.tests[op].deadlineAt <= now then Err(TestLeaseLost)
    else
      var t := s.tests[op].(state := c.state, phase := c.phase, resultCode := c.resultCode, success := c.success,
                            remediationKey := c.remediationKey, completedAt := Some(now));
      if !t.Valid() then Err(Invalid)
      else Ok(s.(tests := s.tests[op := t], claims := s.claims - {op}, revision := s.revision + 1,
                 audits := s.audits + [AuditEvent(t.tenantId, "TEST_COMPLETE", "service:" + executorId, op, Changed,
                                                  OfTest(t.connectionUid, t.generation, t.resultCode))]))
  }
}
