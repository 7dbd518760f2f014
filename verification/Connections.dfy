/**
 Connections, their immutable generations and their tests (control-plane/connection/model.go,
 control-plane/connection/repository.go). Times are integers with 0 for the zero time; the syntax of
 identifiers, settings and policies is abstract.
 */
module Connections {
  import opened Outcomes

  datatype Error =
    | Invalid | NotFound | AlreadyExists | Conflict | InvalidTransition | InUse
    | IdempotencyReused | TestLeaseLost | TestLimitExceeded | GenerationUnavailable

  type Result<+T> = Fallible<T, Error>

  const IsUuid: string -> bool
  const IsDnsSyntax: string -> bool
  const IsConnectorName: string -> bool
  const IsRevision: string -> bool
  /** Not blank, and within the length its field allows. */
  const IsActor: string -> bool
  const IsMethod: string -> bool
  const IsRequestId: string -> bool
  const IsExecutor: string -> bool
  const IsDisplay: (string, string) -> bool
  const IsEgressPolicy: string -> bool
  /** Bounded, with valid keys in strictly ascending order. */
  const IsSettings: seq<Setting> -> bool
  const IsFields: seq<FieldMapping> -> bool

  predicate IsDnsLabel(s: string) { s != "" && '\0' !in s && IsDnsSyntax(s) }

  datatype Sensitivity = Public | Restricted
  datatype Setting = Setting(key: string, value: string, sensitivity: Sensitivity)
  datatype FieldMapping = FieldMapping(logicalField: string, secretKey: string)

  /** An empty provider means that there is no secret. */
  datatype SecretLocator = SecretLocator(
    provider: string, secretName: string, secretUid: string, fields: seq<FieldMapping>) {
    predicate Valid() {
      provider == "KUBERNETES_SECRET_V1" && IsDnsLabel(secretName) && IsUuid(secretUid) && IsFields(fields)
    }
  }

  datatype Generation = Generation(
    number: int, descriptorRevision: string, schemaRevision: string, settings: seq<Setting>,
    locator: SecretLocator, createdAt: int)
  {
    predicate Valid() {
      && number > 0 && IsRevision(descriptorRevision) && IsRevision(schemaRevision) && createdAt != 0
      && IsSettings(settings) && (locator.provider != "" ==> locator.Valid())
    }
  }

  datatype ConnectionState = Disabled | Active

  datatype Connection = Connection(
    tenantId: string, name: string, uid: string, connector: string, version: int, state: ConnectionState,
    displayName: string, description: string, current: Generation, createdAt: int, updatedAt: int)
  {
    predicate Valid() {
      && IsUuid(tenantId) && IsDnsLabel(name) && IsUuid(uid) && IsConnectorName(connector)
      && version > 0 && IsDisplay(displayName, description) && current.Valid()
      && createdAt != 0 && updatedAt != 0 && createdAt <= current.createdAt <= updatedAt
    }
  }

  /** A generation is valid if and only if it is numbered and its revisions, settings and secret are well formed. */
  lemma GenerationIsValidIff(g: Generation)
    ensures g.Valid() <==>
      && 1 <= g.number && g.createdAt != 0 && IsRevision(g.descriptorRevision) && IsRevision(g.schemaRevision)
      && IsSettings(g.settings)
      && (g.locator.provider == ""
          || (g.locator.provider == "KUBERNETES_SECRET_V1" && IsDnsLabel(g.locator.secretName)
              && IsUuid(g.locator.secretUid) && IsFields(g.locator.fields)))
  {
  }

  /** A connection was created no later than its generation, and that no later than its last change. */
  lemma ConnectionIsValidIff(c: Connection)
    ensures c.Valid() <==>
      && IsUuid(c.tenantId) && c.name != "" && '\0' !in c.name && IsDnsSyntax(c.name) && IsUuid(c.uid)
      && IsConnectorName(c.connector) && 1 <= c.version && IsDisplay(c.displayName, c.description) && c.current.Valid()
      && c.createdAt != 0 && c.updatedAt != 0
      && c.createdAt <= c.current.createdAt && c.current.createdAt <= c.updatedAt
  {
    hide Generation.Valid;
  }

  // ----- the four ways to make a connection value

  function New(tenantId: string, name: string, uid: string, connector: string, displayName: string,
               description: string, generation: Generation, now: int): Result<Connection>
  {
    var made := Connection(tenantId, name, uid, connector, 1, Disabled, displayName, description, generation, now, now);
    if made.Valid() then Ok(made) else Err(Invalid)
  }

  datatype Compatibility = Compatible | RevalidationRequired | ConnectorUnavailable

  datatype Edit =
    | Replace(displayName: string, description: string, settings: seq<Setting>, descriptorRevision: string,
        schemaRevision: string, now: int)
    | Rotate(locator: SecretLocator, descriptorRevision: string, schemaRevision: string, now: int)
    | SetState(target: ConnectionState, compatibility: Compatibility, now: int)

  function Checked(c: Connection): Result<Connection> {
    if c.Valid() then Ok(c) else Err(Invalid)
  }

  function Edited(c: Connection, edit: Edit): Result<Connection> {
    match edit
    case Replace(displayName, description, settings, descriptorRevision, schemaRevision, now) =>
      var effective := c.current.settings != settings || c.current.descriptorRevision != descriptorRevision
                       || c.current.schemaRevision != schemaRevision;
      if !effective && c.displayName == displayName && c.description == description then Ok(c)
      else if effective && c.state != Disabled then Err(InvalidTransition)
      else
        var current := if effective
          then Generation(c.current.number + 1, descriptorRevision, schemaRevision, settings, c.current.locator, now)
          else c.current;
        Checked(c.(displayName := displayName, description := description, current := current,
                   version := c.version + 1, updatedAt := now))
    case Rotate(locator, descriptorRevision, schemaRevision, now) =>
      if !locator.Valid() then Err(Invalid)
      else if c.current.locator == locator then Err(InvalidTransition)
      else
        var current := Generation(c.current.number + 1, descriptorRevision, schemaRevision, c.current.settings, locator,
            now);
        Checked(c.(current := current, version := c.version + 1, updatedAt := now))
    case SetState(target, compatibility, now) =>
      if c.state == target then Ok(c)
      else if target == Active && compatibility != Compatible then Err(InvalidTransition)
      else Checked(c.(state := target, version := c.version + 1, updatedAt := now))
  }

  /** A new connection is disabled, at its first version, with the generation it was given. */
  lemma NewIsDisabled(tenantId: string, name: string, uid: string, connector: string, displayName: string,
      description: string, generation: Generation, now: int)
    requires New(tenantId, name, uid, connector, displayName, description, generation, now).Ok?
    ensures var c := New(tenantId, name, uid, connector, displayName, description, generation, now).value;
      && c.Valid() && c.version == 1 && c.state == Disabled && c.createdAt == now && c.updatedAt == now
      && c.tenantId == tenantId && c.name == name && c.uid == uid && c.connector == connector
      && c.displayName == displayName && c.description == description && c.current == generation
  {
  }

  predicate SameGenerationContent(g: Generation, settings: seq<Setting>, descriptor: string, schema: string) {
    g.settings == settings && g.descriptorRevision == descriptor && g.schemaRevision == schema
  }

  /** What an accepted edit stores, and what it leaves as it was. */
  lemma EditStores(c: Connection, edit: Edit)
    requires Edited(c, edit).Ok?
    ensures var next := Edited(c, edit).value;
      match edit
      case Replace(displayName, description, settings, descriptor, schema, now) =>
        && next.displayName == displayName && next.description == description
        && SameGenerationContent(next.current, settings, descriptor, schema)
        && next.current.locator == c.current.locator && next.state == c.state
        && (next.current == c.current <==> SameGenerationContent(c.current, settings, descriptor, schema))
        && (next.current != c.current ==> next.current.createdAt == now)
      case Rotate(locator, descriptor, schema, now) =>
        && next.current.locator == locator && next.current.locator != c.current.locator
        && SameGenerationContent(next.current, c.current.settings, descriptor, schema)
        && next.current.createdAt == now && next.state == c.state
        && next.displayName == c.displayName && next.description == c.description
      case SetState(target, _, now) =>
        && next.state == target && next.current == c.current
        && next.displayName == c.displayName && next.description == c.description
    ensures Edited(c, edit).value.createdAt == c.createdAt
    ensures Edited(c, edit).value != c ==> Edited(c, edit).value.updatedAt == edit.now
  {
    hide Connection.Valid;
  }

  /**
   The lifecycle refuses new contents for an active connection, rotation to the same secret, and activation
   that is not compatible, and nothing else.
   */
  lemma EditIsRefusedIff(c: Connection, edit: Edit)
    ensures Edited(c, edit) == Err(InvalidTransition) <==>
      match edit
      case Replace(_, _, settings, descriptor, schema, _) =>
        c.state == Active && !SameGenerationContent(c.current, settings, descriptor, schema)
      case Rotate(locator, _, _, _) => locator.Valid() && c.current.locator == locator
      case SetState(target, compatibility, _) =>
        c.state == Disabled && target == Active && compatibility != Compatible
  {
    hide Connection.Valid, SecretLocator.Valid;
  }

  /** Every other edit of a valid connection with well-formed contents succeeds, if the clock has not gone back. */
  lemma EditSucceeds(c: Connection, edit: Edit)
    requires c.Valid() && c.updatedAt <= edit.now && edit.now != 0 && Edited(c, edit) != Err(InvalidTransition)
    requires match edit
      case Replace(displayName, description, settings, descriptor, schema, _) =>
        IsDisplay(displayName, description) && IsSettings(settings) && IsRevision(descriptor) && IsRevision(schema)
      case Rotate(locator, descriptor, schema, _) =>
        locator.Valid() && IsRevision(descriptor) && IsRevision(schema)
      case SetState(_, _, _) => true
    ensures Edited(c, edit).Ok?
  {
  }

  /**
   What every edit keeps: identity; the version and the generation rise together or alone, by one; settings
   while active.
   */
  lemma EditsKeep(c: Connection, edit: Edit)
    requires Edited(c, edit).Ok?
    ensures var next := Edited(c, edit).value;
      && next.tenantId == c.tenantId && next.name == c.name && next.uid == c.uid && next.connector == c.connector
      && (next == c || (next.version == c.version + 1 && next.Valid()))
      && (next.current == c.current || next.current.number == c.current.number + 1)
      && (c.state == Active ==> next.current.settings == c.current.settings)
      && (next.state != c.state ==> next.current == c.current)
  {
  }

  // ----- tests

  datatype TestState = Queued | Running | Succeeded | Failed | TimedOut | Canceled | Expired

  datatype Phase = NoPhase | Policy | Dns | Transport | Tls | Authentication | Handshake | Complete {
    predicate IsRunning() { !NoPhase? && !Complete? }
  }

  datatype ResultCode =
    | NoCode | CodeOk | PolicyDenied | SecretUnavailable | DnsFailed | TransportFailed | TlsFailed
    | AuthenticationFailed | HandshakeFailed | DeadlineExceeded | ExecutorUnavailable

  datatype Completion = Completion(
    state: TestState, phase: Phase, resultCode: ResultCode, success: bool, remediationKey: string) {
    predicate Valid() {
      && (state.Succeeded? || state.Failed? || state.TimedOut? || state.Canceled?)
      && !phase.NoPhase? && !resultCode.NoCode?
      && |remediationKey| <= 128 && (forall c :: c in remediationKey ==> c !in "\0\r\n")
      && (if state.Succeeded? then success && phase.Complete? && resultCode.CodeOk? && remediationKey == ""
          else !success && !resultCode.CodeOk?)
      && (state.TimedOut? ==> resultCode.DeadlineExceeded?)
    }
  }

  datatype TestOperation = TestOperation(
    tenantId: string, operationId: string, connectionUid: string, generation: int, descriptorRevision: string,
    actorId: string, egressPolicy: string, state: TestState, phase: Phase, resultCode: ResultCode, success: bool,
    remediationKey: string, createdAt: int, deadlineAt: int,
    startedAt: Option<int>, completedAt: Option<int>, expiresAt: int)
  {
    predicate ValidIdentity() {
      && IsUuid(tenantId) && IsUuid(operationId) && IsUuid(connectionUid) && generation > 0
      && IsRevision(descriptorRevision) && IsActor(actorId) && IsEgressPolicy(egressPolicy)
      && createdAt != 0 && deadlineAt != 0 && createdAt < deadlineAt < expiresAt
    }

    predicate NoResult() { resultCode.NoCode? && !success && remediationKey == "" }

    predicate Ended() { startedAt.Some? && completedAt.Some? && startedAt.value <= completedAt.value }

    predicate Valid() {
      ValidIdentity() &&
      match state
      case Queued => phase.NoPhase? && NoResult() && startedAt.None? && completedAt.None?
      case Running => phase.IsRunning() && NoResult() && startedAt.Some? && completedAt.None?
      case Expired => phase.NoPhase? && NoResult() && Ended()
      case _ => Ended() && Completion(state, phase, resultCode, success, remediationKey).Valid()
    }

    predicate IsActive() { state.Queued? || state.Running? }
  }

  /** What an executor may report: success, or one of three kinds of failure with a reason. */
  lemma CompletionIsValidIff(c: Completion)
    ensures c.Valid() <==>
      && c.phase != NoPhase && |c.remediationKey| <= 128
      && '\0' !in c.remediationKey && '\r' !in c.remediationKey && '\n' !in c.remediationKey
      && match c.state
         case Succeeded => c.success && c.phase == Complete && c.resultCode == CodeOk && c.remediationKey == ""
         case Failed => !c.success && c.resultCode != CodeOk && c.resultCode != NoCode
         case Canceled => !c.success && c.resultCode != CodeOk && c.resultCode != NoCode
         case TimedOut => !c.success && c.resultCode == DeadlineExceeded
         case _ => false
  {
  }

  /** What a test looks like in each state. */
  lemma TestIsValidIff(t: TestOperation)
    ensures t.Valid() <==>
      && IsUuid(t.tenantId) && IsUuid(t.operationId) && IsUuid(t.connectionUid) && 1 <= t.generation
      && IsRevision(t.descriptorRevision) && IsActor(t.actorId) && IsEgressPolicy(t.egressPolicy)
      && t.createdAt != 0 && t.deadlineAt != 0 && t.createdAt < t.deadlineAt && t.deadlineAt < t.expiresAt
      && match t.state
         case Queued => t.phase == NoPhase && Unfinished(t) && t.startedAt == None && t.completedAt == None
         case Running =>
           t.phase != NoPhase && t.phase != Complete && Unfinished(t) && t.startedAt != None && t.completedAt == None
         case Expired => t.phase == NoPhase && Unfinished(t) && StartedThenDone(t)
         case _ =>
           StartedThenDone(t) && Completion(t.state, t.phase, t.resultCode, t.success, t.remediationKey).Valid()
  {
    hide Completion.Valid;
  }

  predicate Unfinished(t: TestOperation) { t.resultCode == NoCode && !t.success && t.remediationKey == "" }

  predicate StartedThenDone(t: TestOperation) {
    t.startedAt != None && t.completedAt != None && t.startedAt.value <= t.completedAt.value
  }

  const SECOND := 1_000_000_000
  const DAY := 24 * 3600 * SECOND
  const MAXIMUM_TEST_LEASE := 300 * SECOND
  const MAXIMUM_TEST_CLAIM_BATCH := 64
  const MAXIMUM_TENANT_ACTIVE_TESTS := 8
  const MAXIMUM_ACTOR_ACTIVE_TESTS := 2
  const MAXIMUM_CONNECTION_ACTIVE_TESTS := 1
  const MAXIMUM_TENANT_DAILY_TESTS := 100

  /** What an executor is given: the claimed test with the generation it captured. */
  datatype TestWork = TestWork(
    operation: TestOperation, connector: string, generation: Generation,
    executorId: string, attempt: int, leaseExpiresAt: int)
  {
    predicate Valid() {
      && operation.Valid() && operation.state.Running?
      && IsConnectorName(connector) && generation.Valid() && generation.number == operation.generation
      && generation.descriptorRevision == operation.descriptorRevision
      && IsExecutor(executorId) && attempt > 0 && leaseExpiresAt != 0
    }
  }

  /** Work is valid if and only if its test runs, the generation is the one the test captured, and the claim is live. */
  lemma WorkIsValidIff(w: TestWork)
    ensures w.Valid() <==>
      && w.operation.Valid() && w.operation.state == Running && IsConnectorName(w.connector) && w.generation.Valid()
      && w.operation.generation == w.generation.number
      && w.operation.descriptorRevision == w.generation.descriptorRevision
      && IsExecutor(w.executorId) && 1 <= w.attempt && w.leaseExpiresAt != 0
  {
    hide TestOperation.Valid, Generation.Valid;
  }
}
