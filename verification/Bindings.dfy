/**
 Jobs and the connections they are bound to: the tables that the job mutations
 (control-plane/job/postgres/mutation_repository.go) and the connection mutations
 (control-plane/connection/postgres/repository.go) change, one atomic transaction at a time.
 */
module Bindings {
  import opened Outcomes
  import opened Jobs
  import C = Connections

  datatype Role = Source | Sink

  function At(spec: Spec, role: Role): ConnectorSpec { if role.Source? then spec.source else spec.sink }

  // ----- tables, by primary key

  datatype NameKey = NameKey(tenantId: string, name: string)
  datatype ConnectionRow = ConnectionRow(
    uid: string, connector: string, version: int, currentGeneration: int, state: C.ConnectionState, display: string)

  datatype GenerationKey = GenerationKey(uid: string, number: int)

  datatype BindingKey = BindingKey(jobUid: string, role: Role)
  datatype StableBinding = StableBinding(tenantId: string, connectionUid: string, connector: string)

  datatype ExecutionKey = ExecutionKey(jobUid: string, epoch: int, role: Role)
  datatype Execution = Execution(tenantId: string, connectionUid: string, generation: int,
      descriptorRevision: string, compilerRevision: string)

  datatype TestRow = TestRow(connectionUid: string, generation: int, active: bool)
  datatype CleanupRow = CleanupRow(connectionUid: string, pending: bool)

  type JobTable = map<Key, Job>
  type ConnectionTable = map<NameKey, ConnectionRow>
  type GenerationTable = map<GenerationKey, C.Generation>
  type StableTable = map<BindingKey, StableBinding>
  type ExecutionTable = map<ExecutionKey, Execution>

  datatype Db = Db(
    jobs: JobTable, stable: StableTable, executions: ExecutionTable, connections: ConnectionTable,
    generations: GenerationTable, tests: map<string, TestRow>, receipts: map<ExecutionKey, GenerationKey>,
    cleanup: map<string, CleanupRow>)

  const EMPTY := Db(map[], map[], map[], map[], map[], map[], map[], map[])

  // ----- job mutations

  datatype Binding = Binding(
    role: Role, tenantId: string, referenceName: string, connectionUid: string, connector: string,
    generation: int, descriptorRevision: string, schemaRevision: string)

  datatype Fence = Fence(compilerRevision: string, bindings: seq<Binding>)

  /** A fence names each role at most once. */
  predicate OnePerRole(bindings: seq<Binding>) {
    forall i, j :: 0 <= i < j < |bindings| ==> bindings[i].role != bindings[j].role
  }

  datatype JobMutation =
    | CreateJob(tenantId: string, key: Key, uid: string, spec: Spec, fence: Fence, now: int)
    | UpdateJob(tenantId: string, key: Key, expectedVersion: int, spec: Spec, fence: Fence, now: int)
    | StartJob(tenantId: string, key: Key, expectedVersion: int, fence: Fence, now: int)
    | StopJob(tenantId: string, key: Key, expectedVersion: int, now: int)
    | DeleteJob(tenantId: string, key: Key, expectedVersion: int, now: int)
  {
    predicate Valid() {
      && key.Valid()
      && (!CreateJob? ==> expectedVersion > 0)
      && (CreateJob? || UpdateJob? || StartJob? ==> |fence.bindings| <= 2 && OnePerRole(fence.bindings))
    }
  }

  predicate Binds(b: Binding, want: ConnectorSpec) {
    b.referenceName == want.connectionRef && b.connector == want.connector
  }

  /** The fence is of this tenant and names exactly the connections the spec refers to. */
  predicate FenceMatches(spec: Spec, tenantId: string, bindings: seq<Binding>) {
    && (forall i :: 0 <= i < |bindings| ==> bindings[i].tenantId == tenantId)
    && (forall i :: 0 <= i < |bindings| ==>
          At(spec, bindings[i].role).connectionRef != "" && Binds(bindings[i], At(spec, bindings[i].role)))
    && (forall role :: At(spec, role).connectionRef != "" ==>
          exists i :: 0 <= i < |bindings| && bindings[i].role == role)
  }

  /** The connection is there as validated: in the tenant, under the name, active, at the same generation and schema. */
  predicate Locks(db: Db, b: Binding) {
    var key := NameKey(b.tenantId, b.referenceName);
    && key in db.connections
    && var row := db.connections[key];
    && row.uid == b.connectionUid && row.connector == b.connector
    && row.state == C.Active && row.currentGeneration == b.generation
    && GenerationKey(row.uid, row.currentGeneration) in db.generations
    && db.generations[GenerationKey(row.uid, row.currentGeneration)].schemaRevision == b.schemaRevision
  }

  predicate LocksAll(db: Db, bindings: seq<Binding>) {
    forall i :: 0 <= i < |bindings| ==> Locks(db, bindings[i])
  }

  function Without(stable: StableTable, jobUid: string): StableTable {
    map k | k in stable && k.jobUid != jobUid :: stable[k]
  }

  function StableRow(tenantId: string, b: Binding): StableBinding {
    StableBinding(tenantId, b.connectionUid, b.connector)
  }

  function WithBindings(stable: StableTable, jobUid: string, tenantId: string, bindings: seq<Binding>): StableTable {
    if bindings == [] then stable else
    WithBindings(stable, jobUid, tenantId, bindings[..|bindings| - 1])
      [BindingKey(jobUid, bindings[|bindings| - 1].role) := StableRow(tenantId, bindings[|bindings| - 1])]
  }

  function Rebound(stable: StableTable, jobUid: string, tenantId: string, bindings: seq<Binding>): StableTable {
    WithBindings(Without(stable, jobUid), jobUid, tenantId, bindings)
  }

  /** The stored bindings are the ones expected. */
  predicate StableMatches(stable: StableTable, jobUid: string, tenantId: string, bindings: seq<Binding>) {
    && (forall i :: 0 <= i < |bindings| ==>
          BindingKey(jobUid, bindings[i].role) in stable
          && stable[BindingKey(jobUid, bindings[i].role)] == StableRow(tenantId, bindings[i]))
    && (forall role :: BindingKey(jobUid, role) in stable ==>
          exists i :: 0 <= i < |bindings| && bindings[i].role == role)
  }

  function ExecutionRow(tenantId: string, fence: Fence, b: Binding): Execution {
    Execution(tenantId, b.connectionUid, b.generation, b.descriptorRevision, fence.compilerRevision)
  }

  function WithExecutions(executions: ExecutionTable, jobUid: string, epoch: int, tenantId: string, fence: Fence,
      bindings: seq<Binding>): ExecutionTable {
    if bindings == [] then executions else
    WithExecutions(executions, jobUid, epoch, tenantId, fence, bindings[..|bindings| - 1])
      [ExecutionKey(jobUid, epoch, bindings[|bindings| - 1].role) :=
        ExecutionRow(tenantId, fence, bindings[|bindings| - 1])]
  }

  predicate UidUsed(jobs: JobTable, uid: string) {
    exists key :: key in jobs && jobs[key].uid == uid
  }

  predicate Captured(executions: ExecutionTable, jobUid: string, epoch: int, bindings: seq<Binding>) {
    exists i :: 0 <= i < |bindings| && ExecutionKey(jobUid, epoch, bindings[i].role) in executions
  }

  function Stored(jobs: JobTable, next: Job): JobTable {
    jobs[next.key := next.(version := next.version + 1)]
  }

  function AfterCreate(db: Db, m: JobMutation): Result<Db>
    requires m.CreateJob?
  {
    if !FenceMatches(m.spec, m.tenantId, m.fence.bindings) || !LocksAll(db, m.fence.bindings) then Err(ValidationStale)
    else match New(m.key, m.uid, m.spec, m.now)
      case Err(e) => Err(e)
      case Ok(created) =>
        if m.key in db.jobs || UidUsed(db.jobs, m.uid) then Err(AlreadyExists)
        else Ok(db.(jobs := db.jobs[m.key := created],
                    stable := Rebound(db.stable, m.uid, m.tenantId, m.fence.bindings)))
  }

  function AfterUpdate(db: Db, m: JobMutation): Result<Db>
    requires m.UpdateJob?
  {
    if m.key !in db.jobs then Err(NotFound)
    else if db.jobs[m.key].version != m.expectedVersion then Err(Conflict)
    else if !FenceMatches(m.spec, m.tenantId, m.fence.bindings) || !LocksAll(db, m.fence.bindings)
      then Err(ValidationStale)
    else match ReplaceSpec(db.jobs[m.key], m.spec, m.now)
      case Err(e) => Err(e)
      case Ok(next) =>
        Ok(db.(jobs := Stored(db.jobs, next), stable := Rebound(db.stable, next.uid, m.tenantId, m.fence.bindings)))
  }

  function AfterStart(db: Db, m: JobMutation): Result<Db>
    requires m.StartJob?
  {
    if m.key !in db.jobs then Err(NotFound)
    else match RequestStart(db.jobs[m.key], m.now)
      case Err(e) => Err(e)
      case Ok((next, changed)) =>
        if !changed then Ok(db)
        else if db.jobs[m.key].version != m.expectedVersion then Err(Conflict)
        else if !FenceMatches(next.spec, m.tenantId, m.fence.bindings)
                || !StableMatches(db.stable, next.uid, m.tenantId, m.fence.bindings) || !LocksAll(db, m.fence.bindings)
                  then Err(ValidationStale)
        else if Captured(db.executions, next.uid, next.status.epoch, m.fence.bindings) then Err(StorageError)
        else Ok(db.(jobs := Stored(db.jobs, next),
                    executions := WithExecutions(
                        db.executions, next.uid, next.status.epoch, m.tenantId, m.fence, m.fence.bindings)))
  }

  function AfterStop(db: Db, m: JobMutation): Result<Db>
    requires m.StopJob?
  {
    if m.key !in db.jobs then Err(NotFound)
    else match RequestStop(db.jobs[m.key], m.now)
      case Err(e) => Err(e)
      case Ok((next, changed)) =>
        if !changed then Ok(db)
        else if db.jobs[m.key].version != m.expectedVersion then Err(Conflict)
        else Ok(db.(jobs := Stored(db.jobs, next)))
  }

  /** Execution bindings are kept when their job is deleted. */
  function AfterDelete(db: Db, m: JobMutation): Result<Db>
    requires m.DeleteJob?
  {
    if m.key !in db.jobs then Err(NotFound)
    else if db.jobs[m.key].version != m.expectedVersion then Err(Conflict)
    else if !Deletable(db.jobs[m.key]) then Err(InvalidTransition)
    else Ok(db.(jobs := db.jobs - {m.key}, stable := Without(db.stable, db.jobs[m.key].uid)))
  }

  function AfterJobMutation(db: Db, m: JobMutation): Result<Db> {
    if !m.Valid() then Err(InvalidJob)
    else match m
      case CreateJob(_, _, _, _, _, _) => AfterCreate(db, m)
      case UpdateJob(_, _, _, _, _, _) => AfterUpdate(db, m)
      case StartJob(_, _, _, _, _) => AfterStart(db, m)
      case StopJob(_, _, _, _) => AfterStop(db, m)
      case DeleteJob(_, _, _, _) => AfterDelete(db, m)
  }

  /** The lifecycle controller stores the state a job has reached; the spec stays. */
  function AfterReport(db: Db, key: Key, expectedVersion: int, epoch: int, state: JobState, failure: Option<Failure>,
      now: int): Result<Db> {
    if key !in db.jobs then Err(NotFound)
    else if db.jobs[key].version != expectedVersion then Err(Conflict)
    else match Advance(db.jobs[key], epoch, state, failure, now)
      case Err(e) => Err(e)
      case Ok((next, changed)) => Ok(db.(jobs := Stored(db.jobs, next)))
  }

  // ----- connection mutations

  function RowOf(c: C.Connection): ConnectionRow {
    ConnectionRow(c.uid, c.connector, c.version, c.current.number, c.state, c.displayName + c.description)
  }

  function KeyOf(c: C.Connection): NameKey { NameKey(c.tenantId, c.name) }

  predicate ConnectionUidUsed(connections: ConnectionTable, uid: string) {
    exists key :: key in connections && connections[key].uid == uid
  }

  function AfterCreateConnection(db: Db, c: C.Connection): Result<Db> {
    if !c.Valid() then Err(InvalidConnection)
    else if KeyOf(c) in db.connections || ConnectionUidUsed(db.connections, c.uid) then Err(AlreadyExists)
    else if GenerationKey(c.uid, c.current.number) in db.generations then Err(StorageError)
    else Ok(db.(connections := db.connections[KeyOf(c) := RowOf(c)],
                generations := db.generations[GenerationKey(c.uid, c.current.number) := c.current]))
  }

  predicate Succeeds(c: C.Connection, row: ConnectionRow) {
    && c.uid == row.uid && c.connector == row.connector
    && (c.version == row.version || c.version == row.version + 1)
    && (c.current.number == row.currentGeneration || c.current.number == row.currentGeneration + 1)
  }

  function AfterUpdateConnection(db: Db, key: NameKey, expectedVersion: int, c: C.Connection): Result<Db> {
    if key !in db.connections then Err(NotFound)
    else if expectedVersion <= 0 || db.connections[key].version != expectedVersion then Err(Conflict)
    else if KeyOf(c) != key || !Succeeds(c, db.connections[key]) then Err(Conflict)
    else if !c.Valid() then Err(InvalidConnection)
    else if c.version == expectedVersion then Ok(db)
    else if c.current.number == db.connections[key].currentGeneration
      then Ok(db.(connections := db.connections[key := RowOf(c)]))
    else if GenerationKey(c.uid, c.current.number) in db.generations then Err(StorageError)
    else Ok(db.(connections := db.connections[key := RowOf(c)],
                generations := db.generations[GenerationKey(c.uid, c.current.number) := c.current]))
  }

  /** Counted by the deletion: bindings, executions, active tests and pending cleanups. */
  predicate Referenced(db: Db, uid: string) {
    || (exists k :: k in db.stable && db.stable[k].connectionUid == uid)
    || (exists k :: k in db.executions && db.executions[k].connectionUid == uid)
    || (exists k :: k in db.tests && db.tests[k].connectionUid == uid && db.tests[k].active)
    || (exists k :: k in db.cleanup && db.cleanup[k].connectionUid == uid && db.cleanup[k].pending)
  }

  /** Foreign keys that restrict a deletion, besides those of the bindings. */
  predicate Restricted(db: Db, uid: string) {
    || (exists k :: k in db.tests && db.tests[k].connectionUid == uid)
    || (exists k :: k in db.receipts && db.receipts[k].uid == uid)
    || (exists k :: k in db.cleanup && db.cleanup[k].connectionUid == uid)
  }

  function AfterDeleteConnection(db: Db, key: NameKey, expectedVersion: int): Result<Db> {
    if key !in db.connections then Err(NotFound)
    else if expectedVersion <= 0 || db.connections[key].version != expectedVersion then Err(Conflict)
    else
      var uid := db.connections[key].uid;
      if db.connections[key].state != C.Disabled || Referenced(db, uid) then Err(InUse)
      else if Restricted(db, uid) then Err(StorageError)
      else Ok(db.(connections := db.connections - {key},
                  generations := map g | g in db.generations && g.uid != uid :: db.generations[g]))
  }
}
