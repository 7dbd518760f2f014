/** Every job is bound to the connections its spec names, and they are there, in every reachable state. */
module BindingIntegrity {
  import opened Outcomes
  import opened Jobs
  import opened Bindings
  import C = Connections
  import Runs

  // ----- integrity

  ghost predicate JobsKeyed(jobs: JobTable) {
    && (forall key :: key in jobs ==> jobs[key].key == key)
    && (forall a, b :: a in jobs && b in jobs && jobs[a].uid == jobs[b].uid ==> a == b)
  }

  /** One binding for a role whose connector names a connection, none otherwise; it leads to that connection. */
  predicate Bound(j: Job, role: Role, stable: StableTable, connections: ConnectionTable) {
    var key, want := BindingKey(j.uid, role), At(j.spec, role);
    if want.connectionRef == "" then key !in stable
    else key in stable && Leads(stable[key], want, connections)
  }

  /** The connection is in the binding's tenant, under the name and with the connector of the spec. */
  predicate Leads(b: StableBinding, want: ConnectorSpec, connections: ConnectionTable) {
    var name := NameKey(b.tenantId, want.connectionRef);
    && name in connections && connections[name].uid == b.connectionUid
    && connections[name].connector == b.connector == want.connector
  }

  ghost predicate AllBound(jobs: JobTable, stable: StableTable, connections: ConnectionTable) {
    forall key, role :: key in jobs ==> Bound(jobs[key], role, stable, connections)
  }

  /** Bindings belong to jobs that are there. */
  ghost predicate NoStrays(jobs: JobTable, stable: StableTable) {
    forall k :: k in stable ==> UidUsed(jobs, k.jobUid)
  }

  ghost predicate ConnectionsKeyed(connections: ConnectionTable, generations: GenerationTable) {
    && (forall a, b :: a in connections && b in connections && connections[a].uid == connections[b].uid ==> a == b)
    && (forall key :: key in connections ==>
          GenerationKey(connections[key].uid, connections[key].currentGeneration) in generations)
    && (forall g :: g in generations ==> ConnectionUidUsed(connections, g.uid))
  }

  /** Executions, tests and receipts point at recorded generations, cleanups at connections. */
  ghost predicate Anchored(executions: ExecutionTable, generations: GenerationTable) {
    forall k :: k in executions ==> GenerationKey(executions[k].connectionUid, executions[k].generation) in generations
  }

  ghost predicate TestsAnchored(tests: map<string, TestRow>, generations: GenerationTable) {
    forall k :: k in tests ==> GenerationKey(tests[k].connectionUid, tests[k].generation) in generations
  }

  ghost predicate ReceiptsAnchored(receipts: map<ExecutionKey, GenerationKey>, generations: GenerationTable) {
    forall k :: k in receipts ==> receipts[k] in generations
  }

  ghost predicate CleanupsAnchored(cleanup: map<string, CleanupRow>, connections: ConnectionTable) {
    forall k :: k in cleanup ==> ConnectionUidUsed(connections, cleanup[k].connectionUid)
  }

  ghost predicate Integrity(db: Db) {
    && JobsKeyed(db.jobs) && AllBound(db.jobs, db.stable, db.connections) && NoStrays(db.jobs, db.stable)
    && ConnectionsKeyed(db.connections, db.generations) && Anchored(db.executions, db.generations)
    && TestsAnchored(db.tests, db.generations) && ReceiptsAnchored(db.receipts, db.generations)
    && CleanupsAnchored(db.cleanup, db.connections)
  }

  // ----- bindings of one job

  lemma {:induction false} BindingsOf(
      stable: StableTable, jobUid: string, tenantId: string, bindings: seq<Binding>, k: BindingKey)
    requires OnePerRole(bindings)
    ensures var r := WithBindings(stable, jobUid, tenantId, bindings);
      && (k in r <==>
            k in stable || (k.jobUid == jobUid && exists i :: 0 <= i < |bindings| && bindings[i].role == k.role))
      && (forall i :: 0 <= i < |bindings| && k == BindingKey(jobUid, bindings[i].role) ==>
            r[k] == StableRow(tenantId, bindings[i]))
      && (k in r && !(k.jobUid == jobUid && exists i :: 0 <= i < |bindings| && bindings[i].role == k.role) ==>
            r[k] == stable[k])
    decreases |bindings|
  {
    if bindings != [] {
      var front, last := bindings[..|bindings| - 1], bindings[|bindings| - 1];
      BindingsOf(stable, jobUid, tenantId, front, k);
      assert bindings == front + [last];
    }
  }

  /** A fence that matches and locks binds the job. */
  lemma FenceBinds(db: Db, j: Job, tenantId: string, bindings: seq<Binding>, role: Role)
    requires OnePerRole(bindings) && FenceMatches(j.spec, tenantId, bindings) && LocksAll(db, bindings)
    ensures Bound(j, role, Rebound(db.stable, j.uid, tenantId, bindings), db.connections)
  {
    var key := BindingKey(j.uid, role);
    BindingsOf(Without(db.stable, j.uid), j.uid, tenantId, bindings, key);
    hide WithBindings, Without;
    if At(j.spec, role).connectionRef != "" {
      var i :| 0 <= i < |bindings| && bindings[i].role == role;
      assert Locks(db, bindings[i]);
    }
    assert key !in Without(db.stable, j.uid) by {
      NoneLeft(db.stable, j.uid, role);
    }
  }

  lemma NoneLeft(stable: StableTable, jobUid: string, role: Role)
    ensures BindingKey(jobUid, role) !in Without(stable, jobUid)
  {
  }

  /** Other jobs keep their bindings. */
  lemma OthersStayBound(stable: StableTable, jobUid: string, tenantId: string, bindings: seq<Binding>, k: BindingKey)
    requires OnePerRole(bindings) && k.jobUid != jobUid
    ensures var r := Rebound(stable, jobUid, tenantId, bindings);
      (k in r <==> k in stable) && (k in r ==> r[k] == stable[k])
  {
    BindingsOf(Without(stable, jobUid), jobUid, tenantId, bindings, k);
  }

  /** Storing a job with the bindings its fence gives. */
  lemma RebindingKeepsBound(db: Db, j: Job, tenantId: string, bindings: seq<Binding>, jobs: JobTable)
    requires AllBound(db.jobs, db.stable, db.connections) && OnePerRole(bindings)
    requires FenceMatches(j.spec, tenantId, bindings) && LocksAll(db, bindings)
    requires forall key :: key in jobs ==>
      (jobs[key].uid == j.uid && jobs[key].spec == j.spec) || (key in db.jobs &&
      jobs[key] == db.jobs[key] && jobs[key].uid != j.uid)
    ensures AllBound(jobs, Rebound(db.stable, j.uid, tenantId, bindings), db.connections)
  {
    hide FenceMatches, LocksAll, OnePerRole, Rebound;
    forall key, role | key in jobs
      ensures Bound(jobs[key], role, Rebound(db.stable, j.uid, tenantId, bindings), db.connections)
    {
      if jobs[key].uid == j.uid {
        FenceBinds(db, j, tenantId, bindings, role);
      } else {
        assert Bound(db.jobs[key], role, db.stable, db.connections);
        OthersStayBound(db.stable, j.uid, tenantId, bindings, BindingKey(jobs[key].uid, role));
      }
    }
  }

  lemma RebindingLeavesNoStrays(stable: StableTable, jobs: JobTable, after: JobTable, jobUid: string,
      tenantId: string, bindings: seq<Binding>)
    requires NoStrays(jobs, stable) && OnePerRole(bindings) && UidUsed(after, jobUid)
    requires forall uid :: UidUsed(jobs, uid) ==> UidUsed(after, uid)
    ensures NoStrays(after, Rebound(stable, jobUid, tenantId, bindings))
  {
    hide OnePerRole, UidUsed, Rebound;
    forall k | k in Rebound(stable, jobUid, tenantId, bindings)
      ensures UidUsed(after, k.jobUid)
    {
      if k.jobUid != jobUid {
        OthersStayBound(stable, jobUid, tenantId, bindings, k);
      }
    }
  }

  // ----- job mutations

  lemma CreateKeepsIntegrity(db: Db, m: JobMutation)
    requires Integrity(db) && m.CreateJob? && m.Valid() && AfterCreate(db, m).Ok?
    ensures Integrity(AfterCreate(db, m).value)
  {
    var created, after := New(m.key, m.uid, m.spec, m.now).value, AfterCreate(db, m).value;
    assert FenceMatches(m.spec, m.tenantId, m.fence.bindings) && LocksAll(db, m.fence.bindings)
           && OnePerRole(m.fence.bindings);
    hide FenceMatches, LocksAll, OnePerRole, Rebound, AllBound, NoStrays, ConnectionsKeyed, Anchored, TestsAnchored,
        ReceiptsAnchored, CleanupsAnchored;
    assert forall key :: key in db.jobs ==> db.jobs[key].uid != m.uid;
    RebindingKeepsBound(db, created, m.tenantId, m.fence.bindings, after.jobs);
    UsedWith(db.jobs, created);
    RebindingLeavesNoStrays(db.stable, db.jobs, after.jobs, m.uid, m.tenantId, m.fence.bindings);
  }

  lemma UsedWith(jobs: JobTable, j: Job)
    requires j.key in jobs ==> jobs[j.key].uid == j.uid
    ensures UidUsed(jobs[j.key := j], j.uid) && forall uid :: UidUsed(jobs, uid) ==> UidUsed(jobs[j.key := j], uid)
  {
    var after := jobs[j.key := j];
    assert after[j.key].uid == j.uid;
    forall uid | UidUsed(jobs, uid)
      ensures UidUsed(after, uid)
    {
      var key :| key in jobs && jobs[key].uid == uid;
      assert after[key].uid == uid;
    }
  }

  /** Storing a job again under its key and UID. */
  lemma StoringKeepsKeyed(jobs: JobTable, next: Job)
    requires JobsKeyed(jobs) && next.key in jobs && jobs[next.key].uid == next.uid
    ensures JobsKeyed(Stored(jobs, next))
    ensures forall uid :: UidUsed(jobs, uid) ==> UidUsed(Stored(jobs, next), uid)
    ensures forall key :: key in jobs && key != next.key ==> jobs[key].uid != next.uid
  {
    UsedWith(jobs, next.(version := next.version + 1));
  }

  lemma UpdateKeepsIntegrity(db: Db, m: JobMutation)
    requires Integrity(db) && m.UpdateJob? && m.Valid() && AfterUpdate(db, m).Ok?
    ensures Integrity(AfterUpdate(db, m).value)
  {
    var next, after := ReplaceSpec(db.jobs[m.key], m.spec, m.now).value, AfterUpdate(db, m).value;
    assert FenceMatches(m.spec, m.tenantId, m.fence.bindings) && LocksAll(db, m.fence.bindings)
           && OnePerRole(m.fence.bindings);
    hide FenceMatches, LocksAll, OnePerRole, Rebound, AllBound, NoStrays, ConnectionsKeyed, Anchored, TestsAnchored,
        ReceiptsAnchored, CleanupsAnchored, UidUsed;
    StoringKeepsKeyed(db.jobs, next);
    RebindingKeepsBound(db, next, m.tenantId, m.fence.bindings, after.jobs);
    RebindingLeavesNoStrays(db.stable, db.jobs, after.jobs, next.uid, m.tenantId, m.fence.bindings);
  }

  /** A new status under the same spec. */
  lemma StatusKeepsIntegrity(db: Db, next: Job)
    requires Integrity(db) && next.key in db.jobs && db.jobs[next.key].uid == next.uid
    requires db.jobs[next.key].spec == next.spec
    ensures Integrity(db.(jobs := Stored(db.jobs, next)))
  {
    hide ConnectionsKeyed, Anchored, TestsAnchored, ReceiptsAnchored, CleanupsAnchored, UidUsed, Leads;
    StoringKeepsKeyed(db.jobs, next);
    var jobs := Stored(db.jobs, next);
    forall key, role | key in jobs
      ensures Bound(jobs[key], role, db.stable, db.connections)
    {
      assert Bound(db.jobs[key], role, db.stable, db.connections);
    }
  }

  lemma {:induction false} CapturesAreAnchored(
      db: Db, jobUid: string, epoch: int, tenantId: string, fence: Fence, bindings: seq<Binding>)
    requires Anchored(db.executions, db.generations) && LocksAll(db, bindings)
    ensures Anchored(WithExecutions(db.executions, jobUid, epoch, tenantId, fence, bindings), db.generations)
    decreases |bindings|
  {
    if bindings != [] {
      assert Locks(db, bindings[|bindings| - 1]);
      CapturesAreAnchored(db, jobUid, epoch, tenantId, fence, bindings[..|bindings| - 1]);
    }
  }

  lemma StartKeepsIntegrity(db: Db, m: JobMutation)
    requires Integrity(db) && m.StartJob? && AfterStart(db, m).Ok?
    ensures Integrity(AfterStart(db, m).value)
  {
    hide FenceMatches, StableMatches, Integrity;
    var (next, changed) := RequestStart(db.jobs[m.key], m.now).value;
    if changed {
      KeyedJob(db, m.key);
      StatusKeepsIntegrity(db, next);
      ExecutionsKeepIntegrity(db.(jobs := Stored(db.jobs, next)), next.uid, next.status.epoch, m.tenantId, m.fence);
    }
  }

  lemma KeyedJob(db: Db, key: Key)
    requires Integrity(db) && key in db.jobs
    ensures db.jobs[key].key == key
  {
  }

  lemma ExecutionsKeepIntegrity(db: Db, jobUid: string, epoch: int, tenantId: string, fence: Fence)
    requires Integrity(db) && LocksAll(db, fence.bindings)
    ensures Integrity(db.(executions := WithExecutions(db.executions, jobUid, epoch, tenantId, fence, fence.bindings)))
  {
    hide JobsKeyed, AllBound, NoStrays, ConnectionsKeyed, TestsAnchored, ReceiptsAnchored, CleanupsAnchored,
        Anchored, WithExecutions, LocksAll;
    CapturesAreAnchored(db, jobUid, epoch, tenantId, fence, fence.bindings);
  }

  lemma StopKeepsIntegrity(db: Db, m: JobMutation)
    requires Integrity(db) && m.StopJob? && AfterStop(db, m).Ok?
    ensures Integrity(AfterStop(db, m).value)
  {
    hide Integrity;
    KeyedJob(db, m.key);
    var (next, changed) := RequestStop(db.jobs[m.key], m.now).value;
    if changed {
      StatusKeepsIntegrity(db, next);
    }
  }

  lemma DeleteKeepsIntegrity(db: Db, m: JobMutation)
    requires Integrity(db) && m.DeleteJob? && AfterDelete(db, m).Ok?
    ensures Integrity(AfterDelete(db, m).value)
  {
    hide ConnectionsKeyed, Anchored, TestsAnchored, ReceiptsAnchored, CleanupsAnchored, Leads;
    var uid, after := db.jobs[m.key].uid, AfterDelete(db, m).value;
    forall key, role | key in after.jobs
      ensures Bound(after.jobs[key], role, after.stable, after.connections)
    {
      assert Bound(db.jobs[key], role, db.stable, db.connections);
    }
    forall k | k in after.stable
      ensures UidUsed(after.jobs, k.jobUid)
    {
      var key :| key in db.jobs && db.jobs[key].uid == k.jobUid;
      assert after.jobs[key].uid == k.jobUid;
    }
  }

  lemma JobMutationKeepsIntegrity(db: Db, m: JobMutation)
    requires Integrity(db) && AfterJobMutation(db, m).Ok?
    ensures Integrity(AfterJobMutation(db, m).value)
  {
    hide Integrity, AfterCreate, AfterUpdate, AfterStart, AfterStop, AfterDelete;
    match m {
      case CreateJob(_, _, _, _, _, _) => CreateKeepsIntegrity(db, m);
      case UpdateJob(_, _, _, _, _, _) => UpdateKeepsIntegrity(db, m);
      case StartJob(_, _, _, _, _) => StartKeepsIntegrity(db, m);
      case StopJob(_, _, _, _) => StopKeepsIntegrity(db, m);
      case DeleteJob(_, _, _, _) => DeleteKeepsIntegrity(db, m);
    }
  }

  lemma ReportKeepsIntegrity(
      db: Db, key: Key, expectedVersion: int, epoch: int, state: JobState, failure: Option<Failure>, now: int)
    requires Integrity(db) && AfterReport(db, key, expectedVersion, epoch, state, failure, now).Ok?
    ensures Integrity(AfterReport(db, key, expectedVersion, epoch, state, failure, now).value)
  {
    hide Integrity;
    KeyedJob(db, key);
    StatusKeepsIntegrity(db, Advance(db.jobs[key], epoch, state, failure, now).value.0);
  }

  // ----- what a start captures

  lemma {:induction false} ExecutionsOf(executions: ExecutionTable, jobUid: string, epoch: int, tenantId: string,
      fence: Fence, bindings: seq<Binding>, i: nat)
    requires OnePerRole(bindings) && i < |bindings|
    ensures var k, r := ExecutionKey(jobUid, epoch, bindings[i].role), WithExecutions(executions, jobUid, epoch,
        tenantId, fence, bindings);
      k in r && r[k] == ExecutionRow(tenantId, fence, bindings[i])
    decreases |bindings|
  {
    if i < |bindings| - 1 {
      ExecutionsOf(executions, jobUid, epoch, tenantId, fence, bindings[..|bindings| - 1], i);
    }
  }

  /**
   A start that changes the job captures, under the new epoch, the connection of each of its bindings at
   the generation that is current, and finds it active.
   */
  lemma StartCapturesBindings(db: Db, m: JobMutation, role: Role)
    requires Integrity(db) && m.StartJob? && m.Valid() && AfterStart(db, m).Ok?
    requires RequestStart(db.jobs[m.key], m.now).value.1
    requires At(db.jobs[m.key].spec, role).connectionRef != ""
    ensures var uid, epoch, after := db.jobs[m.key].uid, db.jobs[m.key].status.epoch + 1, AfterStart(db, m).value;
      && after.jobs[m.key].status.epoch == epoch && ExecutionKey(uid, epoch, role) in after.executions
      && BindingKey(uid, role) in db.stable
      && var e, b := after.executions[ExecutionKey(uid, epoch, role)], db.stable[BindingKey(uid, role)];
         var name := NameKey(b.tenantId, At(db.jobs[m.key].spec, role).connectionRef);
      && e.connectionUid == b.connectionUid && e.tenantId == b.tenantId
      && name in db.connections && db.connections[name].uid == e.connectionUid
      && db.connections[name].state == C.Active && db.connections[name].currentGeneration == e.generation
  {
    KeyedJob(db, m.key);
    hide Integrity, WithExecutions;
    var (next, changed) := RequestStart(db.jobs[m.key], m.now).value;
    var i :| 0 <= i < |m.fence.bindings| && m.fence.bindings[i].role == role;
    ExecutionsOf(db.executions, next.uid, next.status.epoch, m.tenantId, m.fence, m.fence.bindings, i);
    assert Locks(db, m.fence.bindings[i]);
  }

  // ----- connection mutations

  /** Connections may be added, and rows replaced by rows with the same UID and connector. */
  ghost predicate Keeps(connections: ConnectionTable, after: ConnectionTable) {
    forall key :: key in connections ==>
      key in after && after[key].uid == connections[key].uid && after[key].connector == connections[key].connector
  }

  lemma StillBound(jobs: JobTable, stable: StableTable, connections: ConnectionTable, after: ConnectionTable)
    requires AllBound(jobs, stable, connections) && Keeps(connections, after)
    ensures AllBound(jobs, stable, after)
  {
    forall key, role | key in jobs
      ensures Bound(jobs[key], role, stable, after)
    {
      assert Bound(jobs[key], role, stable, connections);
    }
  }

  lemma StillUsed(connections: ConnectionTable, after: ConnectionTable, uid: string)
    requires ConnectionUidUsed(connections, uid) && Keeps(connections, after)
    ensures ConnectionUidUsed(after, uid)
  {
    var key :| key in connections && connections[key].uid == uid;
    assert after[key].uid == uid;
  }

  /** The row may stand under the key: for the connection that is there, or for a new one. */
  predicate Fits(connections: ConnectionTable, key: NameKey, row: ConnectionRow) {
    if key in connections then row.uid == connections[key].uid && row.connector == connections[key].connector
    else !ConnectionUidUsed(connections, row.uid)
  }

  lemma PlacingKeepsKeyed(connections: ConnectionTable, generations: GenerationTable, key: NameKey,
      row: ConnectionRow, after: GenerationTable)
    requires ConnectionsKeyed(connections, generations) && Fits(connections, key, row)
    requires GenerationKey(row.uid, row.currentGeneration) in after && generations.Keys <= after.Keys
    requires forall g :: g in after ==> g in generations || g.uid == row.uid
    ensures ConnectionsKeyed(connections[key := row], after)
  {
    var placed := connections[key := row];
    assert Keeps(connections, placed);
    forall g | g in after
      ensures ConnectionUidUsed(placed, g.uid)
    {
      if g in generations {
        StillUsed(connections, placed, g.uid);
      } else {
        assert placed[key].uid == g.uid;
      }
    }
  }

  lemma CleanupsStayAnchored(cleanup: map<string, CleanupRow>, connections: ConnectionTable, after: ConnectionTable)
    requires CleanupsAnchored(cleanup, connections) && Keeps(connections, after)
    ensures CleanupsAnchored(cleanup, after)
  {
    hide Keeps;
    forall k | k in cleanup
      ensures ConnectionUidUsed(after, cleanup[k].connectionUid)
    {
      StillUsed(connections, after, cleanup[k].connectionUid);
    }
  }

  /** A connection row with a recorded generation, in place of its old row or as a new one. */
  lemma PlacingKeepsIntegrity(db: Db, key: NameKey, row: ConnectionRow, generations: GenerationTable)
    requires Integrity(db) && Fits(db.connections, key, row)
    requires GenerationKey(row.uid, row.currentGeneration) in generations && db.generations.Keys <= generations.Keys
    requires forall g :: g in generations ==> g in db.generations || g.uid == row.uid
    ensures Integrity(db.(connections := db.connections[key := row], generations := generations))
  {
    hide JobsKeyed, AllBound, NoStrays, ConnectionsKeyed, CleanupsAnchored, ConnectionUidUsed;
    var after := db.connections[key := row];
    assert Keeps(db.connections, after);
    hide Keeps;
    StillBound(db.jobs, db.stable, db.connections, after);
    PlacingKeepsKeyed(db.connections, db.generations, key, row, generations);
    CleanupsStayAnchored(db.cleanup, db.connections, after);
  }

  lemma CreateConnectionKeepsIntegrity(db: Db, c: C.Connection)
    requires Integrity(db) && AfterCreateConnection(db, c).Ok?
    ensures Integrity(AfterCreateConnection(db, c).value)
  {
    hide Integrity, C.Connection.Valid;
    PlacingKeepsIntegrity(db, KeyOf(c), RowOf(c), db.generations[GenerationKey(c.uid, c.current.number) := c.current]);
  }

  lemma UpdateConnectionKeepsIntegrity(db: Db, key: NameKey, expectedVersion: int, c: C.Connection)
    requires Integrity(db) && AfterUpdateConnection(db, key, expectedVersion, c).Ok?
    ensures Integrity(AfterUpdateConnection(db, key, expectedVersion, c).value)
  {
    CurrentIsRecorded(db, key);
    hide Integrity, C.Connection.Valid;
    if c.version != expectedVersion {
      if c.current.number == db.connections[key].currentGeneration {
        PlacingKeepsIntegrity(db, key, RowOf(c), db.generations);
      } else {
        PlacingKeepsIntegrity(db, key, RowOf(c), db.generations[GenerationKey(c.uid, c.current.number) := c.current]);
      }
    }
  }

  lemma CurrentIsRecorded(db: Db, key: NameKey)
    requires Integrity(db) && key in db.connections
    ensures GenerationKey(db.connections[key].uid, db.connections[key].currentGeneration) in db.generations
  {
    hide JobsKeyed, AllBound, NoStrays, Anchored, TestsAnchored, ReceiptsAnchored, CleanupsAnchored;
  }

  lemma DeleteConnectionKeepsBound(db: Db, key: NameKey)
    requires AllBound(db.jobs, db.stable, db.connections) && key in db.connections
    requires !Referenced(db, db.connections[key].uid)
    ensures AllBound(db.jobs, db.stable, db.connections - {key})
  {
    forall j, role | j in db.jobs
      ensures Bound(db.jobs[j], role, db.stable, db.connections - {key})
    {
      assert Bound(db.jobs[j], role, db.stable, db.connections);
    }
  }

  lemma DeleteConnectionKeepsKeyed(db: Db, key: NameKey, generations: GenerationTable)
    requires ConnectionsKeyed(db.connections, db.generations) && key in db.connections
    requires forall g :: g in generations <==> g in db.generations && g.uid != db.connections[key].uid
    ensures ConnectionsKeyed(db.connections - {key}, generations)
  {
    forall g | g in generations
      ensures ConnectionUidUsed(db.connections - {key}, g.uid)
    {
      var k :| k in db.connections && db.connections[k].uid == g.uid;
      assert k in db.connections - {key};
    }
  }

  lemma DeleteConnectionKeepsAnchors(db: Db, key: NameKey, generations: GenerationTable)
    requires Anchored(db.executions, db.generations) && TestsAnchored(db.tests, db.generations)
    requires ReceiptsAnchored(db.receipts, db.generations) && CleanupsAnchored(db.cleanup, db.connections)
    requires key in db.connections && !Referenced(db, db.connections[key].uid)
    requires !Restricted(db, db.connections[key].uid)
    requires forall g :: g in generations <==> g in db.generations && g.uid != db.connections[key].uid
    ensures Anchored(db.executions, generations) && TestsAnchored(db.tests, generations)
    ensures ReceiptsAnchored(db.receipts, generations)
    ensures CleanupsAnchored(db.cleanup, db.connections - {key})
  {
    forall k | k in db.cleanup
      ensures ConnectionUidUsed(db.connections - {key}, db.cleanup[k].connectionUid)
    {
      var c :| c in db.connections && db.connections[c].uid == db.cleanup[k].connectionUid;
      assert c in db.connections - {key};
    }
  }

  lemma DeleteConnectionKeepsIntegrity(db: Db, key: NameKey, expectedVersion: int)
    requires Integrity(db) && AfterDeleteConnection(db, key, expectedVersion).Ok?
    ensures Integrity(AfterDeleteConnection(db, key, expectedVersion).value)
  {
    var after := AfterDeleteConnection(db, key, expectedVersion).value;
    hide JobsKeyed, AllBound, NoStrays, ConnectionsKeyed, Anchored, TestsAnchored, ReceiptsAnchored,
        CleanupsAnchored, Referenced, Restricted;
    DeleteConnectionKeepsBound(db, key);
    DeleteConnectionKeepsKeyed(db, key, after.generations);
    DeleteConnectionKeepsAnchors(db, key, after.generations);
  }

  // ----- runs

  datatype Event =
    | MutateJob(m: JobMutation)
    | Report(key: Key, expectedVersion: int, epoch: int, state: JobState, failure: Option<Failure>, now: int)
    | CreateConnection(candidate: C.Connection)
    | UpdateConnection(name: NameKey, expectedVersion: int, candidate: C.Connection)
    | DeleteConnection(name: NameKey, expectedVersion: int)
    /** Rows of the test, receipt and cleanup tables, which foreign keys tie to generations and connections. */
    | PutTest(op: string, test: TestRow)
    | PutReceipt(execution: ExecutionKey, generation: GenerationKey)
    | PutCleanup(id: string, obligation: CleanupRow)

  function Committed(db: Db, r: Result<Db>): Db { if r.Ok? then r.value else db }

  function Next(db: Db, e: Event): Db {
    match e
    case MutateJob(m) => Committed(db, AfterJobMutation(db, m))
    case Report(key, expectedVersion, epoch, state, failure, now) =>
      Committed(db, AfterReport(db, key, expectedVersion, epoch, state, failure, now))
    case CreateConnection(c) => Committed(db, AfterCreateConnection(db, c))
    case UpdateConnection(name, expectedVersion, c) =>
      Committed(db, AfterUpdateConnection(db, name, expectedVersion, c))
    case DeleteConnection(name, expectedVersion) => Committed(db, AfterDeleteConnection(db, name, expectedVersion))
    case PutTest(op, test) =>
      if GenerationKey(test.connectionUid, test.generation) !in db.generations then db
      else db.(tests := db.tests[op := test])
    case PutReceipt(execution, generation) =>
      if generation !in db.generations then db else db.(receipts := db.receipts[execution := generation])
    case PutCleanup(id, obligation) =>
      if !ConnectionUidUsed(db.connections, obligation.connectionUid) then db
      else db.(cleanup := db.cleanup[id := obligation])
  }

  function Run(db: Db, events: seq<Event>): Db {
    Runs.Run(Next, db, events)
  }

  lemma RowsKeepIntegrity(db: Db, e: Event)
    requires Integrity(db) && (e.PutTest? || e.PutReceipt? || e.PutCleanup?)
    ensures Integrity(Next(db, e))
  {
    hide JobsKeyed, AllBound, NoStrays, ConnectionsKeyed, ConnectionUidUsed;
  }

  lemma NextKeepsIntegrity(db: Db, e: Event)
    requires Integrity(db)
    ensures Integrity(Next(db, e))
  {
    hide Integrity, AfterJobMutation, AfterReport, AfterCreateConnection, AfterUpdateConnection, AfterDeleteConnection;
    match e {
      case MutateJob(m) =>
        if AfterJobMutation(db, m).Ok? {
          JobMutationKeepsIntegrity(db, m);
        }
      case Report(key, expectedVersion, epoch, state, failure, now) =>
        if AfterReport(db, key, expectedVersion, epoch, state, failure, now).Ok? {
          ReportKeepsIntegrity(db, key, expectedVersion, epoch, state, failure, now);
        }
      case CreateConnection(c) =>
        if AfterCreateConnection(db, c).Ok? {
          CreateConnectionKeepsIntegrity(db, c);
        }
      case UpdateConnection(name, expectedVersion, c) =>
        if AfterUpdateConnection(db, name, expectedVersion, c).Ok? {
          UpdateConnectionKeepsIntegrity(db, name, expectedVersion, c);
        }
      case DeleteConnection(name, expectedVersion) =>
        if AfterDeleteConnection(db, name, expectedVersion).Ok? {
          DeleteConnectionKeepsIntegrity(db, name, expectedVersion);
        }
      case PutTest(_, _) => RowsKeepIntegrity(db, e);
      case PutReceipt(_, _) => RowsKeepIntegrity(db, e);
      case PutCleanup(_, _) => RowsKeepIntegrity(db, e);
    }
  }

  lemma {:induction false} RunKeepsIntegrity(db: Db, events: seq<Event>)
    requires Integrity(db)
    ensures Integrity(Run(db, events))
    decreases |events|
  {
    hide Integrity, Next;
    if events != [] {
      NextKeepsIntegrity(db, events[0]);
      RunKeepsIntegrity(Next(db, events[0]), events[1..]);
    }
  }

  /**
   In every state that job and connection transactions can reach, a job has a binding for exactly the
   roles whose connector names a connection, and the binding leads to the connection of that name and
   connector in its tenant; every execution binding, of jobs deleted long ago too, leads to a recorded
   generation of a connection that is there.
   */
  lemma BindingsAlwaysLead(events: seq<Event>, key: Key, role: Role, k: ExecutionKey)
    ensures var db := Run(EMPTY, events);
      key in db.jobs ==> Bound(db.jobs[key], role, db.stable, db.connections)
    ensures var db := Run(EMPTY, events);
      k in db.executions ==>
        GenerationKey(db.executions[k].connectionUid, db.executions[k].generation) in db.generations
        && ConnectionUidUsed(db.connections, db.executions[k].connectionUid)
  {
    assert Integrity(EMPTY);
    RunKeepsIntegrity(EMPTY, events);
    hide Run, Bound, ConnectionUidUsed;
  }

  /**
   A deletion succeeds if and only if the connection is stored at the expected version, disabled, and
   nothing refers to it: no binding, no execution, and no row at all of its tests, receipts and cleanups.
   */
  lemma DeletionSucceedsIff(db: Db, key: NameKey, expectedVersion: int)
    ensures AfterDeleteConnection(db, key, expectedVersion).Ok? <==>
      && key in db.connections && 0 < expectedVersion == db.connections[key].version
      && db.connections[key].state == C.Disabled
      && (forall k :: k in db.stable ==> db.stable[k].connectionUid != db.connections[key].uid)
      && (forall k :: k in db.executions ==> db.executions[k].connectionUid != db.connections[key].uid)
      && (forall k :: k in db.tests ==> db.tests[k].connectionUid != db.connections[key].uid)
      && (forall k :: k in db.receipts ==> db.receipts[k].uid != db.connections[key].uid)
      && (forall k :: k in db.cleanup ==> db.cleanup[k].connectionUid != db.connections[key].uid)
    ensures AfterDeleteConnection(db, key, expectedVersion).Ok? ==>
      var after, uid := AfterDeleteConnection(db, key, expectedVersion).value, db.connections[key].uid;
      && after == db.(connections := db.connections - {key}, generations := after.generations)
      && (forall g :: g in after.generations <==> g in db.generations && g.uid != uid)
      && (forall g :: g in after.generations ==> after.generations[g] == db.generations[g])
    ensures AfterDeleteConnection(db, key, expectedVersion) == Err(InUse) <==>
      && key in db.connections && 0 < expectedVersion == db.connections[key].version
      && var uid := db.connections[key].uid;
      || db.connections[key].state == C.Active
      || (exists k :: k in db.stable && db.stable[k].connectionUid == uid)
      || (exists k :: k in db.executions && db.executions[k].connectionUid == uid)
      || (exists k :: k in db.tests && db.tests[k].active && db.tests[k].connectionUid == uid)
      || (exists k :: k in db.cleanup && db.cleanup[k].pending && db.cleanup[k].connectionUid == uid)
    ensures key !in db.connections ==> AfterDeleteConnection(db, key, expectedVersion) == Err(NotFound)
    ensures key in db.connections && (expectedVersion <= 0 || db.connections[key].version != expectedVersion) ==>
      AfterDeleteConnection(db, key, expectedVersion) == Err(Conflict)
  {
  }

  /** So a test that ended long ago keeps its connection from being deleted, though it is not counted as a reference. */
  lemma EndedTestBlocksDeletion(db: Db, key: NameKey, op: string)
    requires key in db.connections && db.connections[key].state == C.Disabled && db.connections[key].version > 0
    requires op in db.tests && db.tests[op].connectionUid == db.connections[key].uid
    requires !Referenced(db, db.connections[key].uid)
    ensures AfterDeleteConnection(db, key, db.connections[key].version) == Err(StorageError)
  {
  }
}
