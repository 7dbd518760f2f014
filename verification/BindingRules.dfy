/**
 What each transaction on jobs and connections accepts, and exactly what it does then, in terms of the request
 and the rows alone (control-plane/job/postgres/mutation_repository.go,
 control-plane/connection/postgres/repository.go).
 */
module BindingRules {
  import opened Outcomes
  import opened Jobs
  import opened Bindings
  import opened BindingIntegrity
  import C = Connections

  // ----- fences

  /** The binding is of the connection that the tenant has under the wanted name, as it is now. */
  predicate UpToDate(db: Db, tenantId: string, want: ConnectorSpec, b: Binding) {
    var name := NameKey(tenantId, want.connectionRef);
    && b.tenantId == tenantId && b.referenceName == want.connectionRef && b.connector == want.connector
    && name in db.connections
    && var row := db.connections[name];
    && row.uid == b.connectionUid && row.connector == want.connector && row.state == C.Active
    && row.currentGeneration == b.generation && GenerationKey(row.uid, b.generation) in db.generations
    && db.generations[GenerationKey(row.uid, b.generation)].schemaRevision == b.schemaRevision
  }

  predicate Has(bindings: seq<Binding>, role: Role) {
    exists i :: 0 <= i < |bindings| && bindings[i].role == role
  }

  /** For a role that names a connection there is a binding and it is up to date; for any other there is none. */
  predicate RoleIsFenced(db: Db, tenantId: string, role: Role, want: ConnectorSpec, bindings: seq<Binding>) {
    && (Has(bindings, role) <==> want.connectionRef != "")
    && forall i :: 0 <= i < |bindings| && bindings[i].role == role ==> UpToDate(db, tenantId, want, bindings[i])
  }

  predicate Fenced(db: Db, tenantId: string, spec: Spec, bindings: seq<Binding>) {
    RoleIsFenced(db, tenantId, Source, spec.source, bindings) && RoleIsFenced(db, tenantId, Sink, spec.sink, bindings)
  }

  lemma FencedIff(db: Db, tenantId: string, spec: Spec, bindings: seq<Binding>)
    ensures FenceMatches(spec, tenantId, bindings) && LocksAll(db, bindings) <==> Fenced(db, tenantId, spec, bindings)
  {
    forall i | 0 <= i < |bindings|
      ensures bindings[i].tenantId == tenantId && Locks(db, bindings[i])
        && At(spec, bindings[i].role).connectionRef != "" && Binds(bindings[i], At(spec, bindings[i].role))
        <==> At(spec, bindings[i].role).connectionRef != ""
             && UpToDate(db, tenantId, At(spec, bindings[i].role), bindings[i])
    {
    }
    assert At(spec, Source) == spec.source && At(spec, Sink) == spec.sink;
    if Fenced(db, tenantId, spec, bindings) {
      forall role | At(spec, role).connectionRef != ""
        ensures exists i :: 0 <= i < |bindings| && bindings[i].role == role
      {
        assert Has(bindings, role);
      }
      forall i | 0 <= i < |bindings|
        ensures At(spec, bindings[i].role).connectionRef != ""
      {
        assert Has(bindings, bindings[i].role);
      }
    }
    if FenceMatches(spec, tenantId, bindings) && LocksAll(db, bindings) {
      forall role
        ensures Has(bindings, role) <==> At(spec, role).connectionRef != ""
      {
      }
      forall i | 0 <= i < |bindings|
        ensures Locks(db, bindings[i])
      {
      }
    }
  }

  /** What every request with a fence has to satisfy. */
  predicate WellFormed(m: JobMutation) {
    && m.key.Valid() && (!m.CreateJob? ==> m.expectedVersion > 0)
    && (m.CreateJob? || m.UpdateJob? || m.StartJob? ==>
          |m.fence.bindings| <= 2
          && forall i, j :: 0 <= i < j < |m.fence.bindings| ==> m.fence.bindings[i].role != m.fence.bindings[j].role)
  }

  /** The job has the bindings of the fence, and those of every other job are as they were. */
  ghost predicate BoundBy(before: StableTable, after: StableTable, jobUid: string, tenantId: string,
      bindings: seq<Binding>) {
    && (forall k: BindingKey :: k.jobUid != jobUid ==>
          (k in after <==> k in before) && (k in before ==> after[k] == before[k]))
    && (forall role :: BindingKey(jobUid, role) in after <==> Has(bindings, role))
    && (forall i :: 0 <= i < |bindings| ==>
          var k := BindingKey(jobUid, bindings[i].role);
          k in after && after[k] == StableBinding(tenantId, bindings[i].connectionUid, bindings[i].connector))
  }

  lemma ReboundIs(stable: StableTable, jobUid: string, tenantId: string, bindings: seq<Binding>)
    requires OnePerRole(bindings)
    ensures BoundBy(stable, Rebound(stable, jobUid, tenantId, bindings), jobUid, tenantId, bindings)
  {
    forall k: BindingKey | k.jobUid != jobUid
      ensures var r := Rebound(stable, jobUid, tenantId, bindings);
        (k in r <==> k in stable) && (k in stable ==> r[k] == stable[k])
    {
      OthersStayBound(stable, jobUid, tenantId, bindings, k);
    }
    forall role
      ensures BindingKey(jobUid, role) in Rebound(stable, jobUid, tenantId, bindings) <==> Has(bindings, role)
    {
      BindingsOf(Without(stable, jobUid), jobUid, tenantId, bindings, BindingKey(jobUid, role));
    }
    forall i | 0 <= i < |bindings|
      ensures var k, r := BindingKey(jobUid, bindings[i].role), Rebound(stable, jobUid, tenantId, bindings);
        k in r && r[k] == StableBinding(tenantId, bindings[i].connectionUid, bindings[i].connector)
    {
      BindingsOf(Without(stable, jobUid), jobUid, tenantId, bindings, BindingKey(jobUid, bindings[i].role));
    }
  }

  /** The start captured each binding of the fence, and every other captured row is as it was. */
  ghost predicate CapturedBy(before: ExecutionTable, after: ExecutionTable, jobUid: string, epoch: int,
      tenantId: string, fence: Fence) {
    && (forall k: ExecutionKey :: !(k.jobUid == jobUid && k.epoch == epoch && Has(fence.bindings, k.role)) ==>
          (k in after <==> k in before) && (k in before ==> after[k] == before[k]))
    && (forall i :: 0 <= i < |fence.bindings| ==>
          var k, b := ExecutionKey(jobUid, epoch, fence.bindings[i].role), fence.bindings[i];
          k in after && after[k] ==
            Execution(tenantId, b.connectionUid, b.generation, b.descriptorRevision, fence.compilerRevision))
  }

  lemma {:induction false} OthersStayCaptured(
      executions: ExecutionTable, jobUid: string, epoch: int, tenantId: string, fence: Fence, bindings: seq<Binding>,
      k: ExecutionKey)
    requires !(k.jobUid == jobUid && k.epoch == epoch && Has(bindings, k.role))
    ensures var r := WithExecutions(executions, jobUid, epoch, tenantId, fence, bindings);
      (k in r <==> k in executions) && (k in executions ==> r[k] == executions[k])
    decreases |bindings|
  {
    if bindings != [] {
      var front := bindings[..|bindings| - 1];
      assert Has(front, k.role) ==> Has(bindings, k.role);
      assert bindings[|bindings| - 1].role == k.role ==> Has(bindings, k.role);
      OthersStayCaptured(executions, jobUid, epoch, tenantId, fence, front, k);
    }
  }

  lemma CapturesAre(executions: ExecutionTable, jobUid: string, epoch: int, tenantId: string, fence: Fence)
    requires OnePerRole(fence.bindings)
    ensures CapturedBy(executions, WithExecutions(executions, jobUid, epoch, tenantId, fence, fence.bindings), jobUid,
      epoch, tenantId, fence)
  {
    hide WithExecutions, OnePerRole;
    forall k: ExecutionKey | !(k.jobUid == jobUid && k.epoch == epoch && Has(fence.bindings, k.role))
      ensures var r := WithExecutions(executions, jobUid, epoch, tenantId, fence, fence.bindings);
        (k in r <==> k in executions) && (k in executions ==> r[k] == executions[k])
    {
      OthersStayCaptured(executions, jobUid, epoch, tenantId, fence, fence.bindings, k);
    }
    forall i | 0 <= i < |fence.bindings|
      ensures var k, b := ExecutionKey(jobUid, epoch, fence.bindings[i].role), fence.bindings[i];
        var r := WithExecutions(executions, jobUid, epoch, tenantId, fence, fence.bindings);
        k in r && r[k] ==
          Execution(tenantId, b.connectionUid, b.generation, b.descriptorRevision, fence.compilerRevision)
    {
      ExecutionsOf(executions, jobUid, epoch, tenantId, fence, fence.bindings, i);
    }
  }

  // ----- job transactions

  /** Tables that no job transaction changes. */
  predicate ConnectionsStay(db: Db, after: Db) {
    && after.connections == db.connections && after.generations == db.generations && after.tests == db.tests
    && after.receipts == db.receipts && after.cleanup == db.cleanup
  }

  /** A creation succeeds if and only if the name and the UID are free and the fence is up to date. */
  lemma CreateSucceedsIff(db: Db, m: JobMutation)
    requires m.CreateJob?
    ensures AfterJobMutation(db, m).Ok? <==>
      && WellFormed(m) && IsUuid(m.uid) && m.spec.Valid() && Fenced(db, m.tenantId, m.spec, m.fence.bindings)
      && m.key !in db.jobs && forall key :: key in db.jobs ==> db.jobs[key].uid != m.uid
    ensures AfterJobMutation(db, m).Ok? ==>
      var after := AfterJobMutation(db, m).value;
      && ConnectionsStay(db, after) && after.executions == db.executions
      && m.key in after.jobs && after.jobs == db.jobs[m.key := after.jobs[m.key]]
      && after.jobs[m.key].uid == m.uid && after.jobs[m.key].spec == m.spec && after.jobs[m.key].version == 1
      && after.jobs[m.key].status.state == Created && after.jobs[m.key].status.epoch == 0
      && BoundBy(db.stable, after.stable, m.uid, m.tenantId, m.fence.bindings)
  {
    FencedIff(db, m.tenantId, m.spec, m.fence.bindings);
    hide FenceMatches, LocksAll, Fenced, Rebound, BoundBy;
    if OnePerRole(m.fence.bindings) {
      ReboundIs(db.stable, m.uid, m.tenantId, m.fence.bindings);
    }
  }

  /**
   An update succeeds if and only if the job is stored at the version named, is not initializing, running or
   canceling, the spec is valid and the fence is up to date. It replaces the spec and the bindings, at the next
   version.
   */
  lemma UpdateSucceedsIff(db: Db, m: JobMutation)
    requires m.UpdateJob? && JobsKeyed(db.jobs)
    ensures AfterJobMutation(db, m).Ok? <==>
      && WellFormed(m) && m.key in db.jobs && db.jobs[m.key].version == m.expectedVersion && m.spec.Valid()
      && db.jobs[m.key].status.state in {Created, Canceled, Finished, Failed}
      && Fenced(db, m.tenantId, m.spec, m.fence.bindings)
    ensures WellFormed(m) && m.key !in db.jobs ==> AfterJobMutation(db, m) == Err(NotFound)
    ensures WellFormed(m) && m.key in db.jobs && db.jobs[m.key].version != m.expectedVersion ==>
      AfterJobMutation(db, m) == Err(Conflict)
    ensures AfterJobMutation(db, m).Ok? ==>
      var was, after := db.jobs[m.key], AfterJobMutation(db, m).value;
      && ConnectionsStay(db, after) && after.executions == db.executions
      && after.jobs == db.jobs[m.key := was.(spec := m.spec, updatedAt := m.now, version := was.version + 1)]
      && BoundBy(db.stable, after.stable, was.uid, m.tenantId, m.fence.bindings)
  {
    FencedIff(db, m.tenantId, m.spec, m.fence.bindings);
    hide FenceMatches, LocksAll, Fenced, Rebound, BoundBy;
    if OnePerRole(m.fence.bindings) && m.key in db.jobs {
      ReboundIs(db.stable, db.jobs[m.key].uid, m.tenantId, m.fence.bindings);
    }
  }

  /** The stored bindings of the job are those of the fence. */
  ghost predicate AlreadyBoundBy(stable: StableTable, jobUid: string, tenantId: string, bindings: seq<Binding>) {
    && (forall role :: BindingKey(jobUid, role) in stable <==> Has(bindings, role))
    && (forall i :: 0 <= i < |bindings| ==>
          var k := BindingKey(jobUid, bindings[i].role);
          k in stable && stable[k] == StableBinding(tenantId, bindings[i].connectionUid, bindings[i].connector))
  }

  lemma AlreadyBoundIff(stable: StableTable, jobUid: string, tenantId: string, bindings: seq<Binding>)
    ensures StableMatches(stable, jobUid, tenantId, bindings) <==> AlreadyBoundBy(stable, jobUid, tenantId, bindings)
  {
    if StableMatches(stable, jobUid, tenantId, bindings) {
      forall role
        ensures BindingKey(jobUid, role) in stable <==> Has(bindings, role)
      {
        if Has(bindings, role) {
          var i :| 0 <= i < |bindings| && bindings[i].role == role;
          assert BindingKey(jobUid, bindings[i].role) in stable;
        }
      }
    }
    if AlreadyBoundBy(stable, jobUid, tenantId, bindings) {
      forall role | BindingKey(jobUid, role) in stable
        ensures exists i :: 0 <= i < |bindings| && bindings[i].role == role
      {
        assert Has(bindings, role);
      }
    }
  }

  /** What a start needs besides the version: bindings that are stored, up to date, and not captured yet. */
  ghost predicate ReadyToStart(db: Db, j: Job, tenantId: string, fence: Fence) {
    && Fenced(db, tenantId, j.spec, fence.bindings) && AlreadyBoundBy(db.stable, j.uid, tenantId, fence.bindings)
    && forall i :: 0 <= i < |fence.bindings| ==>
         ExecutionKey(j.uid, j.status.epoch + 1, fence.bindings[i].role) !in db.executions
  }

  /**
   A start of a job that is initializing or running does nothing. Any other succeeds if and only if the job is
   stored at the version named, is not canceling, and its bindings are the fence's, up to date and not captured
   for the new epoch; it captures them.
   */
  lemma StartSucceedsIff(db: Db, m: JobMutation)
    requires m.StartJob? && JobsKeyed(db.jobs)
    ensures AfterJobMutation(db, m).Ok? <==>
      && WellFormed(m) && m.key in db.jobs
      && (Up(db.jobs[m.key])
          || (db.jobs[m.key].status.state != Canceling && db.jobs[m.key].version == m.expectedVersion
              && ReadyToStart(db, db.jobs[m.key], m.tenantId, m.fence)))
    ensures AfterJobMutation(db, m).Ok? && Up(db.jobs[m.key]) ==> AfterJobMutation(db, m).value == db
    ensures AfterJobMutation(db, m).Ok? && !Up(db.jobs[m.key]) ==>
      var was, after := db.jobs[m.key], AfterJobMutation(db, m).value;
      && ConnectionsStay(db, after) && after.stable == db.stable
      && m.key in after.jobs && after.jobs == db.jobs[m.key := after.jobs[m.key]]
      && after.jobs[m.key].version == was.version + 1 && after.jobs[m.key].status.epoch == was.status.epoch + 1
      && after.jobs[m.key].status.state == Initializing && after.jobs[m.key].spec == was.spec
      && CapturedBy(db.executions, after.executions, was.uid, was.status.epoch + 1, m.tenantId, m.fence)
  {
    hide FenceMatches, LocksAll, StableMatches, ReadyToStart, Captured, WithExecutions, CapturedBy;
    if m.key in db.jobs {
      var j := db.jobs[m.key];
      ReadyIff(db, j, m.tenantId, m.fence);
      if OnePerRole(m.fence.bindings) {
        CapturesAre(db.executions, j.uid, j.status.epoch + 1, m.tenantId, m.fence);
      }
    }
  }

  lemma ReadyIff(db: Db, j: Job, tenantId: string, fence: Fence)
    ensures ReadyToStart(db, j, tenantId, fence) <==>
      && FenceMatches(j.spec, tenantId, fence.bindings) && LocksAll(db, fence.bindings)
      && StableMatches(db.stable, j.uid, tenantId, fence.bindings)
      && !Captured(db.executions, j.uid, j.status.epoch + 1, fence.bindings)
  {
    hide FenceMatches, LocksAll, Fenced, StableMatches, AlreadyBoundBy;
    FencedIff(db, tenantId, j.spec, fence.bindings);
    AlreadyBoundIff(db.stable, j.uid, tenantId, fence.bindings);
  }

  /** Wanted and on its way or there. */
  predicate Up(j: Job) {
    j.status.desired == DesiredRunning && (j.status.state == Initializing || j.status.state == Running)
  }

  /** A stop of a job that is to be stopped does nothing; any other needs the version, and cancels what is up. */
  lemma StopSucceedsIff(db: Db, m: JobMutation)
    requires m.StopJob? && JobsKeyed(db.jobs)
    ensures AfterJobMutation(db, m).Ok? <==>
      && WellFormed(m) && m.key in db.jobs
      && (db.jobs[m.key].status.desired == DesiredStopped
          || (db.jobs[m.key].version == m.expectedVersion
              && db.jobs[m.key].status.state in {Initializing, Running, Canceled, Finished, Failed}))
    ensures AfterJobMutation(db, m).Ok? && db.jobs[m.key].status.desired == DesiredStopped ==>
      AfterJobMutation(db, m).value == db
    ensures AfterJobMutation(db, m).Ok? && db.jobs[m.key].status.desired == DesiredRunning ==>
      var was, after := db.jobs[m.key], AfterJobMutation(db, m).value;
      var state := if Up(was) then Canceling else was.status.state;
      after == db.(jobs := db.jobs[m.key := was.(
        version := was.version + 1, updatedAt := m.now,
        status := was.status.(desired := DesiredStopped, state := state))])
  {
  }

  /**
   A deletion succeeds if and only if the job is stored at the version named and is not initializing, running or
   canceling; its bindings go with it, what it captured stays.
   */
  lemma DeleteSucceedsIff(db: Db, m: JobMutation)
    requires m.DeleteJob?
    ensures AfterJobMutation(db, m).Ok? <==>
      && WellFormed(m) && m.key in db.jobs && db.jobs[m.key].version == m.expectedVersion
      && db.jobs[m.key].status.state in {Created, Canceled, Finished, Failed}
    ensures AfterJobMutation(db, m).Ok? ==>
      var was, after := db.jobs[m.key], AfterJobMutation(db, m).value;
      && ConnectionsStay(db, after) && after.executions == db.executions && after.jobs == db.jobs - {m.key}
      && BoundBy(db.stable, after.stable, was.uid, m.tenantId, [])
  {
  }

  // ----- reports and connections

  /** A report is stored if and only if the job is at the version named and its lifecycle accepts the report. */
  lemma ReportIsStoredIff(db: Db, key: Key, expectedVersion: int, epoch: int, state: JobState,
      failure: Option<Failure>, now: int)
    requires JobsKeyed(db.jobs)
    ensures AfterReport(db, key, expectedVersion, epoch, state, failure, now).Ok? <==>
      && key in db.jobs && db.jobs[key].version == expectedVersion && db.jobs[key].status.epoch == epoch
      && (db.jobs[key].status.state == state
          || ((db.jobs[key].status.state, state) in REPORTED && (failure.Some? <==> state == Failed)))
    ensures AfterReport(db, key, expectedVersion, epoch, state, failure, now).Ok? ==>
      var was, after := db.jobs[key], AfterReport(db, key, expectedVersion, epoch, state, failure, now).value;
      && after == db.(jobs := after.jobs) && key in after.jobs && after.jobs == db.jobs[key := after.jobs[key]]
      && after.jobs[key].version == was.version + 1 && after.jobs[key].status.state == state
      && after.jobs[key].spec == was.spec && after.jobs[key].uid == was.uid
  {
    if key in db.jobs {
      ReportSucceedsIff(db.jobs[key], epoch, state, failure, now);
    }
  }

  /** The row of a connection. */
  predicate RowShows(row: ConnectionRow, c: C.Connection) {
    && row.uid == c.uid && row.connector == c.connector && row.version == c.version && row.state == c.state
    && row.currentGeneration == c.current.number && row.display == c.displayName + c.description
  }

  lemma ConnectionIsCreatedIff(db: Db, c: C.Connection)
    ensures AfterCreateConnection(db, c).Ok? <==>
      && c.Valid() && NameKey(c.tenantId, c.name) !in db.connections
      && (forall key :: key in db.connections ==> db.connections[key].uid != c.uid)
      && GenerationKey(c.uid, c.current.number) !in db.generations
    ensures AfterCreateConnection(db, c).Ok? ==>
      var name, after := NameKey(c.tenantId, c.name), AfterCreateConnection(db, c).value;
      && after == db.(connections := after.connections, generations := after.generations)
      && name in after.connections && after.connections == db.connections[name := after.connections[name]]
      && RowShows(after.connections[name], c)
      && after.generations == db.generations[GenerationKey(c.uid, c.current.number) := c.current]
  {
    hide C.Connection.Valid;
  }

  /** Stored at the version named, and the candidate is the same connection at that version or the next. */
  predicate Follows(db: Db, name: NameKey, expectedVersion: int, c: C.Connection) {
    && name in db.connections && 0 < expectedVersion == db.connections[name].version
    && NameKey(c.tenantId, c.name) == name && c.uid == db.connections[name].uid
    && c.connector == db.connections[name].connector && expectedVersion <= c.version <= expectedVersion + 1
    && db.connections[name].currentGeneration <= c.current.number <= db.connections[name].currentGeneration + 1
    && c.Valid()
  }

  /**
   A connection is updated if and only if the candidate follows the stored one; a candidate at the stored
   version changes nothing, and a new generation must not be recorded yet.
   */
  lemma ConnectionIsUpdatedIff(db: Db, name: NameKey, expectedVersion: int, c: C.Connection)
    ensures AfterUpdateConnection(db, name, expectedVersion, c).Ok? <==>
      && Follows(db, name, expectedVersion, c)
      && (c.version == expectedVersion || c.current.number == db.connections[name].currentGeneration
          || GenerationKey(c.uid, c.current.number) !in db.generations)
    ensures AfterUpdateConnection(db, name, expectedVersion, c).Ok? ==>
      var after := AfterUpdateConnection(db, name, expectedVersion, c).value;
      if c.version == expectedVersion then after == db
      else
        && after == db.(connections := after.connections, generations := after.generations)
        && name in after.connections && after.connections == db.connections[name := after.connections[name]]
        && RowShows(after.connections[name], c)
        && after.generations ==
             if c.current.number == db.connections[name].currentGeneration then db.generations
             else db.generations[GenerationKey(c.uid, c.current.number) := c.current]
  {
    hide C.Connection.Valid;
  }

  // ----- versions over runs

  predicate Creates(e: Event, uid: string) { e.MutateJob? && e.m.CreateJob? && e.m.uid == uid }

  predicate JobAt(db: Db, key: Key, uid: string) { key in db.jobs && db.jobs[key].uid == uid }

  /** An event leaves a job as it is, stores it at the next version, or deletes it; it does not bring it back. */
  lemma NextOfJob(db: Db, e: Event, key: Key, uid: string)
    requires JobsKeyed(db.jobs) && !Creates(e, uid) && JobAt(Next(db, e), key, uid)
    ensures JobAt(db, key, uid)
    ensures Next(db, e).jobs[key] == db.jobs[key] || Next(db, e).jobs[key].version == db.jobs[key].version + 1
  {
    hide Fenced, ReadyToStart, BoundBy, CapturedBy, AfterJobMutation, AfterReport, AfterCreateConnection,
        AfterUpdateConnection, AfterDeleteConnection, ConnectionUidUsed;
    match e {
      case MutateJob(m) =>
        if AfterJobMutation(db, m).Ok? {
          MutationOfJob(db, m, key, uid);
        }
      case Report(reported, expectedVersion, epoch, state, failure, now) =>
        ReportIsStoredIff(db, reported, expectedVersion, epoch, state, failure, now);
      case CreateConnection(c) => ConnectionIsCreatedIff(db, c);
      case UpdateConnection(name, expectedVersion, c) => ConnectionIsUpdatedIff(db, name, expectedVersion, c);
      case DeleteConnection(name, expectedVersion) =>
        if AfterDeleteConnection(db, name, expectedVersion).Ok? {
          DeletionLeavesJobs(db, name, expectedVersion);
        }
      case _ =>
    }
  }

  lemma DeletionLeavesJobs(db: Db, name: NameKey, expectedVersion: int)
    requires AfterDeleteConnection(db, name, expectedVersion).Ok?
    ensures AfterDeleteConnection(db, name, expectedVersion).value.jobs == db.jobs
  {
    hide Referenced, Restricted;
  }

  lemma MutationOfJob(db: Db, m: JobMutation, key: Key, uid: string)
    requires JobsKeyed(db.jobs) && AfterJobMutation(db, m).Ok? && JobAt(AfterJobMutation(db, m).value, key, uid)
    requires m.CreateJob? ==> m.uid != uid
    ensures var after := AfterJobMutation(db, m).value;
      JobAt(db, key, uid)
      && (after.jobs[key] == db.jobs[key] || after.jobs[key].version == db.jobs[key].version + 1)
  {
    hide Fenced, ReadyToStart, BoundBy, CapturedBy, AfterJobMutation, ConnectionsStay, WellFormed;
    match m {
      case CreateJob(_, _, _, _, _, _) => CreateSucceedsIff(db, m);
      case UpdateJob(_, _, _, _, _, _) => UpdateSucceedsIff(db, m);
      case StartJob(_, _, _, _, _) => StartKeepsUid(db, m); StartSucceedsIff(db, m);
      case StopJob(_, _, _, _) => StopSucceedsIff(db, m);
      case DeleteJob(_, _, _, _) => DeleteSucceedsIff(db, m);
    }
  }

  lemma StartKeepsUid(db: Db, m: JobMutation)
    requires m.StartJob? && JobsKeyed(db.jobs) && AfterJobMutation(db, m).Ok?
    ensures m.key in db.jobs && m.key in AfterJobMutation(db, m).value.jobs
    ensures AfterJobMutation(db, m).value.jobs[m.key].uid == db.jobs[m.key].uid
  {
    hide FenceMatches, LocksAll, StableMatches, Captured, WithExecutions;
  }

  /**
   Over any run in which the UID is not created again, the version of a job identifies its row: if it is
   stored at the same version as before, it is what it was. So a mutation that is accepted at a version builds
   on the row that was read at that version.
   */
  lemma {:induction false} VersionIdentifiesJob(db: Db, events: seq<Event>, key: Key, uid: string)
    requires Integrity(db) && JobAt(Run(db, events), key, uid)
    requires forall e :: e in events ==> !Creates(e, uid)
    ensures JobAt(db, key, uid) && db.jobs[key].version <= Run(db, events).jobs[key].version
    ensures db.jobs[key].version == Run(db, events).jobs[key].version ==> Run(db, events).jobs[key] == db.jobs[key]
    decreases |events|
  {
    hide Integrity, Next, Creates;
    if events != [] {
      var next := Next(db, events[0]);
      assert events[0] in events && forall e :: e in events[1..] ==> e in events;
      NextKeepsIntegrity(db, events[0]);
      VersionIdentifiesJob(next, events[1..], key, uid);
      assert JobsKeyed(db.jobs) by {
        KeyedJobs(db);
      }
      NextOfJob(db, events[0], key, uid);
    }
  }

  lemma KeyedJobs(db: Db)
    requires Integrity(db)
    ensures JobsKeyed(db.jobs)
  {
  }
}
