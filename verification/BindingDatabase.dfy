/**
 The transactions behind job mutations (control-plane/job/postgres/mutation_repository.go) and connection
 deletion (control-plane/connection/postgres/repository.go), statement by statement. A transaction works
 on its own copy of the tables; it may fail for reasons of its own, and then changes nothing.
 */
module BindingDatabase {
  import opened Outcomes
  import opened Jobs
  import opened Bindings
  import opened BindingIntegrity
  import C = Connections

  // ----- computed from the request alone

  method VerifyFence(spec: Spec, tenantId: string, bindings: seq<Binding>) returns (ok: bool)
    requires OnePerRole(bindings)
    ensures ok == FenceMatches(spec, tenantId, bindings)
  {
    var byRole: map<Role, Binding> := map[];
    for i := 0 to |bindings|
      invariant forall k :: 0 <= k < i ==> bindings[k].tenantId == tenantId
      invariant forall k :: 0 <= k < i ==> bindings[k].role in byRole && byRole[bindings[k].role] == bindings[k]
      invariant forall role :: role in byRole ==>
        exists k :: 0 <= k < i && bindings[k].role == role && byRole[role] == bindings[k]
    {
      if bindings[i].tenantId != tenantId {
        return false;
      }
      byRole := byRole[bindings[i].role := bindings[i]];
    }
    FenceByRole(spec, tenantId, bindings, byRole);
    return RoleMatches(spec.source, byRole, Source) && RoleMatches(spec.sink, byRole, Sink);
  }

  lemma FenceByRole(spec: Spec, tenantId: string, bindings: seq<Binding>, byRole: map<Role, Binding>)
    requires forall k :: 0 <= k < |bindings| ==> bindings[k].tenantId == tenantId
    requires forall k :: 0 <= k < |bindings| ==> bindings[k].role in byRole && byRole[bindings[k].role] == bindings[k]
    requires forall role :: role in byRole ==>
      exists k :: 0 <= k < |bindings| && bindings[k].role == role && byRole[role] == bindings[k]
    ensures FenceMatches(spec, tenantId, bindings) <==>
      RoleMatches(spec.source, byRole, Source) && RoleMatches(spec.sink, byRole, Sink)
  {
    if FenceMatches(spec, tenantId, bindings) {
      forall role
        ensures RoleMatches(At(spec, role), byRole, role)
      {
        if At(spec, role).connectionRef != "" {
          var i :| 0 <= i < |bindings| && bindings[i].role == role;
          assert Binds(bindings[i], At(spec, role));
        }
      }
      assert At(spec, Source) == spec.source && At(spec, Sink) == spec.sink;
    }
    if RoleMatches(spec.source, byRole, Source) && RoleMatches(spec.sink, byRole, Sink) {
      forall role
        ensures RoleMatches(At(spec, role), byRole, role)
      {
      }
    }
  }

  predicate RoleMatches(want: ConnectorSpec, byRole: map<Role, Binding>, role: Role) {
    if want.connectionRef == "" then role !in byRole else role in byRole && Binds(byRole[role], want)
  }

  // ----- statements on a copy of the tables

  method LockConnections(tx: Db, bindings: seq<Binding>) returns (ok: bool)
    requires ConnectionsKeyed(tx.connections, tx.generations)
    ensures ok == LocksAll(tx, bindings)
  {
    for i := 0 to |bindings|
      invariant forall k :: 0 <= k < i ==> Locks(tx, bindings[k])
    {
      var b := bindings[i];
      if !exists key ::
               key in tx.connections && key.tenantId == b.tenantId && tx.connections[key].uid == b.connectionUid {
        return false;
      }
      var key :| key in tx.connections && key.tenantId == b.tenantId && tx.connections[key].uid == b.connectionUid;
      var row := tx.connections[key];
      if key.name != b.referenceName || row.connector != b.connector || row.state != C.Active
         || row.currentGeneration != b.generation
         || tx.generations[GenerationKey(row.uid, row.currentGeneration)].schemaRevision != b.schemaRevision {
        return false;
      }
    }
    return true;
  }

  method ReplaceStable(tx: Db, jobUid: string, tenantId: string, bindings: seq<Binding>) returns (r: Result<Db>)
    requires OnePerRole(bindings) && UidUsed(tx.jobs, jobUid) && LocksAll(tx, bindings)
    ensures r == Ok(tx.(stable := Rebound(tx.stable, jobUid, tenantId, bindings)))
  {
    var stable := map k | k in tx.stable && k.jobUid != jobUid :: tx.stable[k];
    ghost var start := stable;
    for i := 0 to |bindings|
      invariant stable == WithBindings(start, jobUid, tenantId, bindings[..i])
    {
      var b := bindings[i];
      BindingsOf(start, jobUid, tenantId, bindings[..i], BindingKey(jobUid, b.role));
      assert bindings[..i + 1][..i] == bindings[..i];
      assert Locks(tx, b);
      if BindingKey(jobUid, b.role) in stable || !ConnectionUidUsed(tx.connections, b.connectionUid) {
        return Err(StorageError);
      }
      stable := stable[BindingKey(jobUid, b.role) := StableBinding(tenantId, b.connectionUid, b.connector)];
    }
    assert bindings[..|bindings|] == bindings;
    return Ok(tx.(stable := stable));
  }

  lemma {:induction false} RolesAreTwo(bindings: seq<Binding>, roles: set<Role>)
    requires OnePerRole(bindings) && forall i :: 0 <= i < |bindings| ==> bindings[i].role in roles
    ensures |bindings| <= |roles|
    ensures |bindings| == |roles| ==> forall role :: role in roles ==>
      exists i :: 0 <= i < |bindings| && bindings[i].role == role
    decreases |bindings|
  {
    if bindings != [] {
      var front, last := bindings[..|bindings| - 1], bindings[|bindings| - 1];
      RolesAreTwo(front, roles - {last.role});
      assert bindings == front + [last];
    }
  }

  method VerifyStable(tx: Db, jobUid: string, tenantId: string, bindings: seq<Binding>) returns (ok: bool)
    requires OnePerRole(bindings)
    ensures ok == StableMatches(tx.stable, jobUid, tenantId, bindings)
  {
    var actual := map k | k in tx.stable && k.jobUid == jobUid :: k.role := tx.stable[k];
    assert forall role :: role in actual <==> BindingKey(jobUid, role) in tx.stable;
    var all := true;
    for i := 0 to |bindings|
      invariant all <==> forall k :: 0 <= k < i ==>
        bindings[k].role in actual && actual[bindings[k].role] == StableRow(tenantId, bindings[k])
    {
      var b := bindings[i];
      if b.role !in actual || actual[b.role].tenantId != tenantId || actual[b.role].connectionUid != b.connectionUid
         || actual[b.role].connector != b.connector {
        all := false;
      }
    }
    if all {
      RolesAreTwo(bindings, actual.Keys);
    }
    ok := all && |actual| == |bindings|;
    if StableMatches(tx.stable, jobUid, tenantId, bindings) {
      RolesAreBindings(bindings, actual.Keys);
    }
  }

  lemma {:induction false} RolesAreBindings(bindings: seq<Binding>, roles: set<Role>)
    requires OnePerRole(bindings)
    requires forall role :: role in roles <==> exists i :: 0 <= i < |bindings| && bindings[i].role == role
    ensures |roles| == |bindings|
    decreases |bindings|
  {
    if bindings == [] {
      assert roles == {};
    } else {
      var front, last := bindings[..|bindings| - 1], bindings[|bindings| - 1];
      assert bindings == front + [last];
      assert last.role in roles;
      RolesAreBindings(front, roles - {last.role});
    }
  }

  method CaptureExecutions(tx: Db, jobUid: string, epoch: int, tenantId: string, fence: Fence) returns (r: Result<Db>)
    requires OnePerRole(fence.bindings) && LocksAll(tx, fence.bindings)
    ensures r == if Captured(tx.executions, jobUid, epoch, fence.bindings) then Err(StorageError)
                 else Ok(tx.(
                        executions := WithExecutions(tx.executions, jobUid, epoch, tenantId, fence, fence.bindings)))
  {
    var executions := tx.executions;
    for i := 0 to |fence.bindings|
      invariant executions == WithExecutions(tx.executions, jobUid, epoch, tenantId, fence, fence.bindings[..i])
      invariant forall k :: 0 <= k < i ==> ExecutionKey(jobUid, epoch, fence.bindings[k].role) !in tx.executions
      invariant forall x :: x in executions ==>
        x in tx.executions || exists k :: 0 <= k < i && x == ExecutionKey(jobUid, epoch, fence.bindings[k].role)
      invariant forall x :: x in tx.executions ==> x in executions
    {
      var b := fence.bindings[i];
      assert fence.bindings[..i + 1][..i] == fence.bindings[..i];
      assert Locks(tx, b);
      if ExecutionKey(jobUid, epoch, b.role) in executions
         || GenerationKey(b.connectionUid, b.generation) !in tx.generations {
        return Err(StorageError);
      }
      executions := executions[ExecutionKey(jobUid, epoch, b.role) :=
        Execution(tenantId, b.connectionUid, b.generation, b.descriptorRevision, fence.compilerRevision)];
    }
    assert fence.bindings[..|fence.bindings|] == fence.bindings;
    return Ok(tx.(executions := executions));
  }

  // ----- transactions

  /** The reply of a transaction that ran to its end on the tables `tx`. */
  method CreateTx(tx: Db, m: JobMutation) returns (r: Result<Db>)
    requires Integrity(tx) && m.CreateJob? && m.Valid()
    ensures r == AfterCreate(tx, m)
  {
    hide Integrity, FenceMatches, LocksAll, Rebound, New;
    var ok := VerifyFence(m.spec, m.tenantId, m.fence.bindings);
    if !ok {
      return Err(ValidationStale);
    }
    IntegrityKeys(tx);
    ok := LockConnections(tx, m.fence.bindings);
    if !ok {
      return Err(ValidationStale);
    }
    var created := New(m.key, m.uid, m.spec, m.now);
    if created.Err? {
      return Err(created.error);
    }
    if m.key in tx.jobs || exists key :: key in tx.jobs && tx.jobs[key].uid == m.uid {
      return Err(AlreadyExists);
    }
    var inserted := tx.(jobs := tx.jobs[m.key := created.value]);
    assert UidUsed(inserted.jobs, m.uid) by {
      NewIsKeyed(m.key, m.uid, m.spec, m.now);
      assert inserted.jobs[m.key].uid == m.uid;
    }
    SameLocks(tx, inserted, m.fence.bindings);
    r := ReplaceStable(inserted, m.uid, m.tenantId, m.fence.bindings);
  }

  lemma NewIsKeyed(key: Key, uid: string, spec: Spec, now: int)
    requires New(key, uid, spec, now).Ok?
    ensures New(key, uid, spec, now).value.uid == uid
  {
  }

  lemma IntegrityKeys(tx: Db)
    requires Integrity(tx)
    ensures ConnectionsKeyed(tx.connections, tx.generations) && forall key :: key in tx.jobs ==> tx.jobs[key].key == key
  {
    hide AllBound, NoStrays, ConnectionsKeyed, Anchored, TestsAnchored, ReceiptsAnchored, CleanupsAnchored;
  }

  lemma SameLocks(tx: Db, after: Db, bindings: seq<Binding>)
    requires LocksAll(tx, bindings) && after.connections == tx.connections && after.generations == tx.generations
    ensures LocksAll(after, bindings)
  {
    forall i | 0 <= i < |bindings|
      ensures Locks(after, bindings[i])
    {
      assert Locks(tx, bindings[i]);
    }
  }

  method UpdateTx(tx: Db, m: JobMutation) returns (r: Result<Db>)
    requires Integrity(tx) && m.UpdateJob? && m.Valid()
    ensures r == AfterUpdate(tx, m)
  {
    hide Integrity, FenceMatches, LocksAll, Rebound;
    IntegrityKeys(tx);
    if m.key !in tx.jobs {
      return Err(NotFound);
    }
    var current := tx.jobs[m.key];
    if current.version != m.expectedVersion {
      return Err(Conflict);
    }
    var ok := VerifyFence(m.spec, m.tenantId, m.fence.bindings);
    if !ok {
      return Err(ValidationStale);
    }
    ok := LockConnections(tx, m.fence.bindings);
    if !ok {
      return Err(ValidationStale);
    }
    var next := ReplaceSpec(current, m.spec, m.now);
    if next.Err? {
      return Err(next.error);
    }
    var updated := next.value.(version := current.version + 1);
    var stored := tx.(jobs := tx.jobs[m.key := updated]);
    assert UidUsed(stored.jobs, updated.uid) by {
      assert stored.jobs[m.key].uid == updated.uid;
    }
    SameLocks(tx, stored, m.fence.bindings);
    r := ReplaceStable(stored, updated.uid, m.tenantId, m.fence.bindings);
  }

  method StartTx(tx: Db, m: JobMutation) returns (r: Result<Db>)
    requires Integrity(tx) && m.StartJob? && m.Valid()
    ensures r == AfterStart(tx, m)
  {
    hide Integrity, FenceMatches, LocksAll, StableMatches, WithExecutions, Captured;
    IntegrityKeys(tx);
    if m.key !in tx.jobs {
      return Err(NotFound);
    }
    var current := tx.jobs[m.key];
    var started := RequestStart(current, m.now);
    if started.Err? {
      return Err(started.error);
    }
    var (next, changed) := started.value;
    if !changed {
      return Ok(tx);
    }
    if current.version != m.expectedVersion {
      return Err(Conflict);
    }
    var ok := VerifyFence(current.spec, m.tenantId, m.fence.bindings);
    if !ok {
      return Err(ValidationStale);
    }
    ok := VerifyStable(tx, current.uid, m.tenantId, m.fence.bindings);
    if !ok {
      return Err(ValidationStale);
    }
    ok := LockConnections(tx, m.fence.bindings);
    if !ok {
      return Err(ValidationStale);
    }
    var stored := tx.(jobs := tx.jobs[m.key := next.(version := current.version + 1)]);
    SameLocks(tx, stored, m.fence.bindings);
    r := CaptureExecutions(stored, next.uid, next.status.epoch, m.tenantId, m.fence);
  }

  method StopTx(tx: Db, m: JobMutation) returns (r: Result<Db>)
    requires Integrity(tx) && m.StopJob?
    ensures r == AfterStop(tx, m)
  {
    hide Integrity;
    IntegrityKeys(tx);
    if m.key !in tx.jobs {
      return Err(NotFound);
    }
    var current := tx.jobs[m.key];
    var stopped := RequestStop(current, m.now);
    if stopped.Err? {
      return Err(stopped.error);
    }
    var (next, changed) := stopped.value;
    if !changed {
      return Ok(tx);
    }
    if current.version != m.expectedVersion {
      return Err(Conflict);
    }
    return Ok(tx.(jobs := tx.jobs[m.key := next.(version := current.version + 1)]));
  }

  method DeleteTx(tx: Db, m: JobMutation) returns (r: Result<Db>)
    requires m.DeleteJob?
    ensures r == AfterDelete(tx, m)
  {
    if m.key !in tx.jobs {
      return Err(NotFound);
    }
    var current := tx.jobs[m.key];
    if current.version != m.expectedVersion {
      return Err(Conflict);
    }
    if !Deletable(current) {
      return Err(InvalidTransition);
    }
    var stable := map k | k in tx.stable && k.jobUid != current.uid :: tx.stable[k];
    return Ok(tx.(stable := stable, jobs := tx.jobs - {m.key}));
  }

  /** The four counts are all zero exactly when nothing refers to the connection. */
  lemma CountedIsReferenced(db: Db, uid: string, jobs: set<BindingKey>, executions: set<ExecutionKey>,
      active: set<string>, pending: set<string>)
    requires forall k :: k in jobs <==> k in db.stable && db.stable[k].connectionUid == uid
    requires forall k :: k in executions <==> k in db.executions && db.executions[k].connectionUid == uid
    requires forall k :: k in active <==> k in db.tests && db.tests[k].connectionUid == uid && db.tests[k].active
    requires forall k :: k in pending <==>
      k in db.cleanup && db.cleanup[k].connectionUid == uid && db.cleanup[k].pending
    ensures Referenced(db, uid) <==> |jobs| != 0 || |executions| != 0 || |active| != 0 || |pending| != 0
  {
    if jobs != {} {
      var k :| k in jobs;
    }
    if executions != {} {
      var k :| k in executions;
    }
    if active != {} {
      var k :| k in active;
    }
    if pending != {} {
      var k :| k in pending;
    }
  }

  class Database {
    var db: Db

    constructor ()
      ensures db == EMPTY && Integrity(db)
    {
      db := EMPTY;
      assert Integrity(EMPTY);
    }

    /** Serializable: the transaction takes effect as a whole, or not at all. */
    method ApplyMutation(m: JobMutation) returns (r: Result<()>)
      requires Integrity(db)
      modifies this
      ensures r.Ok? ==> AfterJobMutation(old(db), m) == Ok(db)
      ensures r.Err? ==> db == old(db)
      ensures AfterJobMutation(old(db), m).Err? ==> r == Err(AfterJobMutation(old(db), m).error)
      ensures Integrity(db)
    {
      hide Integrity, AfterCreate, AfterUpdate, AfterStart, AfterStop, AfterDelete;
      if !m.Valid() {
        return Err(InvalidJob);
      }
      var tx: Result<Db>;
      match m {
        case CreateJob(_, _, _, _, _, _) => tx := CreateTx(db, m);
        case UpdateJob(_, _, _, _, _, _) => tx := UpdateTx(db, m);
        case StartJob(_, _, _, _, _) => tx := StartTx(db, m);
        case StopJob(_, _, _, _) => tx := StopTx(db, m);
        case DeleteJob(_, _, _, _) => tx := DeleteTx(db, m);
      }
      var committed: bool := *;
      if tx.Err? {
        return Err(tx.error);
      }
      if !committed {
        return Err(StorageError);
      }
      JobMutationKeepsIntegrity(db, m);
      db := tx.value;
      return Ok(());
    }

    /** Deletes a connection that nothing refers to. */
    method DeleteConnection(key: NameKey, expectedVersion: int) returns (r: Result<()>)
      requires Integrity(db)
      modifies this
      ensures r.Ok? ==> AfterDeleteConnection(old(db), key, expectedVersion) == Ok(db)
      ensures r.Err? ==> db == old(db)
      ensures AfterDeleteConnection(old(db), key, expectedVersion).Err? ==>
        r == Err(AfterDeleteConnection(old(db), key, expectedVersion).error)
      ensures Integrity(db)
    {
      hide Integrity;
      if key !in db.connections {
        return Err(NotFound);
      }
      var row := db.connections[key];
      if row.version != expectedVersion || expectedVersion <= 0 {
        return Err(Conflict);
      }
      if row.state != C.Disabled {
        return Err(InUse);
      }
      var jobs := set k | k in db.stable && db.stable[k].connectionUid == row.uid;
      var executions := set k | k in db.executions && db.executions[k].connectionUid == row.uid;
      var active := set k | k in db.tests && db.tests[k].connectionUid == row.uid && db.tests[k].active;
      var pending := set k | k in db.cleanup && db.cleanup[k].connectionUid == row.uid && db.cleanup[k].pending;
      CountedIsReferenced(db, row.uid, jobs, executions, active, pending);
      if |jobs| != 0 || |executions| != 0 || |active| != 0 || |pending| != 0 {
        return Err(InUse);
      }
      var committed: bool := *;
      if !committed || (exists k :: k in db.tests && db.tests[k].connectionUid == row.uid)
         || (exists k :: k in db.receipts && db.receipts[k].uid == row.uid)
         || (exists k :: k in db.cleanup && db.cleanup[k].connectionUid == row.uid) {
        return Err(StorageError);
      }
      DeleteConnectionKeepsIntegrity(db, key, expectedVersion);
      db := db.(connections := db.connections - {key},
                generations := map g | g in db.generations && g.uid != row.uid :: db.generations[g]);
      return Ok(());
    }
  }
}
