/**
 Jobs and their lifecycle (control-plane/job/model.go, control-plane/job/lifecycle.go). Times are
 integers with 0 for the zero time; identifier syntax and the parts of a spec that no rule looks at
 are abstract.
 */
module Jobs {
  import opened Outcomes

  datatype Error =
    | InvalidJob | InvalidTransition | StaleEpoch | NotFound | AlreadyExists | Conflict
    | ValidationStale | InUse | InvalidConnection | StorageError

  type Result<+T> = Fallible<T, Error>

  const IsDnsLabel: string -> bool
  const IsUuid: string -> bool
  const IsConnectorName: string -> bool
  const IsBlank: string -> bool
  /** Transforms, delivery guarantee, runtime settings and options. */
  const IsSpecBody: string -> bool

  datatype Key = Key(namespace: string, name: string) {
    predicate Valid() { IsDnsLabel(namespace) && IsDnsLabel(name) }
  }

  datatype ConnectorSpec = ConnectorSpec(connector: string, connectionRef: string)

  datatype Spec = Spec(source: ConnectorSpec, sink: ConnectorSpec, body: string) {
    predicate Valid() {
      IsConnectorName(source.connector) && IsConnectorName(sink.connector) && IsSpecBody(body)
    }
  }

  datatype DesiredState = DesiredStopped | DesiredRunning
  datatype JobState = Created | Initializing | Running | Canceling | Canceled | Finished | Failed

  datatype Checkpoint = Checkpoint(id: int, timestamp: int, stateSize: int, durationMs: int)
  datatype Failure = Failure(reason: string, timestamp: int)

  datatype Status = Status(
    desired: DesiredState, state: JobState, epoch: int, restartCount: int,
    startTime: Option<int>, endTime: Option<int>, lastCheckpoint: Option<Checkpoint>, failure: Option<Failure>)
  {
    predicate Valid() {
      && epoch >= 0 && restartCount >= 0
      && (state.Created? <==> epoch == 0)
      && (state.Initializing? || state.Running? <==> desired.DesiredRunning?)
      && (epoch > 0 <==> startTime.Some?)
      && (Terminal(state) <==> endTime.Some?)
      && (state.Failed? <==> failure.Some?)
      && (failure.Some? ==> !IsBlank(failure.value.reason) && failure.value.timestamp != 0)
      && (lastCheckpoint.Some? ==>
            var c := lastCheckpoint.value; c.id >= 0 && c.timestamp != 0 && c.stateSize >= 0 && c.durationMs >= 0)
    }
  }

  datatype Job = Job(
    key: Key, uid: string, version: int, spec: Spec, status: Status, createdAt: int, updatedAt: int)
  {
    predicate Valid() {
      && key.Valid() && IsUuid(uid) && version > 0 && spec.Valid() && status.Valid()
      && createdAt != 0 && updatedAt != 0 && updatedAt >= createdAt
    }
  }

  predicate Terminal(s: JobState) { s.Canceled? || s.Finished? || s.Failed? }

  predicate Active(s: JobState) { s.Initializing? || s.Running? || s.Canceling? }

  function New(key: Key, uid: string, spec: Spec, now: int): Result<Job> {
    if !key.Valid() || !IsUuid(uid) || !spec.Valid() then Err(InvalidJob) else
    Ok(Job(key, uid, 1, spec, Status(DesiredStopped, Created, 0, 0, None, None, None, None), now, now))
  }

  function ReplaceSpec(j: Job, spec: Spec, now: int): Result<Job> {
    if !spec.Valid() then Err(InvalidJob)
    else if Active(j.status.state) then Err(InvalidTransition)
    else Ok(j.(spec := spec, updatedAt := now))
  }

  predicate Deletable(j: Job) { !Active(j.status.state) }

  /** The new job and whether it changed. */
  function RequestStart(j: Job, now: int): Result<(Job, bool)> {
    var s := j.status;
    if s.desired.DesiredRunning? && (s.state.Initializing? || s.state.Running?) then Ok((j, false))
    else if s.state.Canceling? then Err(InvalidTransition)
    else
      var next := s.(
        restartCount := if s.epoch > 0 then s.restartCount + 1 else s.restartCount,
        epoch := s.epoch + 1, desired := DesiredRunning, state := Initializing,
        startTime := Some(now), endTime := None, failure := None);
      Ok((j.(status := next, updatedAt := now), true))
  }

  function RequestStop(j: Job, now: int): Result<(Job, bool)> {
    var s := j.status;
    if s.desired.DesiredStopped? then Ok((j, false))
    else match s.state
      case Initializing => Ok((j.(status := s.(desired := DesiredStopped, state := Canceling), updatedAt := now), true))
      case Running => Ok((j.(status := s.(desired := DesiredStopped, state := Canceling), updatedAt := now), true))
      case Canceled => Ok((j.(status := s.(desired := DesiredStopped), updatedAt := now), true))
      case Finished => Ok((j.(status := s.(desired := DesiredStopped), updatedAt := now), true))
      case Failed => Ok((j.(status := s.(desired := DesiredStopped), updatedAt := now), true))
      case _ => Err(InvalidTransition)
  }

  predicate AllowedTransition(current: JobState, next: JobState) {
    match current
    case Initializing => next.Running? || next.Failed?
    case Running => next.Finished? || next.Failed?
    case Canceling => next.Canceled? || next.Failed?
    case _ => false
  }

  function Advance(j: Job, epoch: int, state: JobState, failure: Option<Failure>, now: int): Result<(Job, bool)> {
    var s := j.status;
    if epoch != s.epoch then Err(StaleEpoch)
    else if state == s.state then Ok((j, false))
    else if !AllowedTransition(s.state, state) then Err(InvalidTransition)
    else if state.Failed? && failure.None? then Err(InvalidTransition)
    else if !state.Failed? && failure.Some? then Err(InvalidTransition)
    else
      var next := s.(
        state := state, failure := failure,
        desired := if Terminal(state) then DesiredStopped else s.desired,
        endTime := if Terminal(state) then Some(now) else if state.Running? then None else s.endTime);
      Ok((j.(status := next, updatedAt := now), true))
  }

  // ----- valid jobs

  /** What a status looks like in each state. */
  predicate StatusFits(s: Status) {
    && 0 <= s.restartCount
    && (match s.state
        case Created => s.epoch == 0 && s.startTime == None && s.endTime == None && s.failure == None
        case Initializing => 0 < s.epoch && s.startTime != None && s.endTime == None && s.failure == None
        case Running => 0 < s.epoch && s.startTime != None && s.endTime == None && s.failure == None
        case Canceling => 0 < s.epoch && s.startTime != None && s.endTime == None && s.failure == None
        case Canceled => 0 < s.epoch && s.startTime != None && s.endTime != None && s.failure == None
        case Finished => 0 < s.epoch && s.startTime != None && s.endTime != None && s.failure == None
        case Failed =>
          && 0 < s.epoch && s.startTime != None && s.endTime != None && s.failure != None
          && !IsBlank(s.failure.value.reason) && s.failure.value.timestamp != 0)
    && s.desired == (if s.state == Initializing || s.state == Running then DesiredRunning else DesiredStopped)
    && match s.lastCheckpoint
       case None => true
       case Some(c) => 0 <= c.id && c.timestamp != 0 && 0 <= c.stateSize && 0 <= c.durationMs
  }

  /** A job is valid if and only if its identity and spec are well formed and its status fits its state. */
  lemma JobIsValidIff(j: Job)
    ensures j.Valid() <==>
      && IsDnsLabel(j.key.namespace) && IsDnsLabel(j.key.name) && IsUuid(j.uid) && 1 <= j.version
      && IsConnectorName(j.spec.source.connector) && IsConnectorName(j.spec.sink.connector) && IsSpecBody(j.spec.body)
      && j.createdAt != 0 && j.updatedAt != 0 && j.createdAt <= j.updatedAt && StatusFits(j.status)
  {
  }

  // ----- what each function accepts, and what it does then

  /** A new job is stopped, was never started, and is at its first version. */
  lemma NewIsStopped(key: Key, uid: string, spec: Spec, now: int)
    ensures New(key, uid, spec, now).Ok? <==> key.Valid() && IsUuid(uid) && spec.Valid()
    ensures New(key, uid, spec, now).Ok? ==>
      var j := New(key, uid, spec, now).value;
      && j.key == key && j.uid == uid && j.spec == spec && j.version == 1 && j.createdAt == now && j.updatedAt == now
      && j.status.desired == DesiredStopped && j.status.state == Created && j.status.epoch == 0
      && j.status.restartCount == 0 && j.status.startTime == None && j.status.endTime == None
      && j.status.lastCheckpoint == None && j.status.failure == None
  {
  }

  /** A spec is replaced if and only if it is valid and the job is not initializing, running or canceling. */
  lemma ReplacementSucceedsIff(j: Job, spec: Spec, now: int)
    ensures ReplaceSpec(j, spec, now).Ok? <==>
      spec.Valid() && j.status.state in {Created, Canceled, Finished, Failed}
    ensures spec.Valid() && ReplaceSpec(j, spec, now).Err? ==> ReplaceSpec(j, spec, now) == Err(InvalidTransition)
    ensures ReplaceSpec(j, spec, now).Ok? ==>
      var next := ReplaceSpec(j, spec, now).value;
      && next.spec == spec && next.updatedAt == now && next.status == j.status
      && next.key == j.key && next.uid == j.uid && next.version == j.version && next.createdAt == j.createdAt
  {
  }

  /** A job can be deleted if and only if it is not initializing, running or canceling. */
  lemma DeletableIff(j: Job)
    ensures Deletable(j) <==> j.status.state in {Created, Canceled, Finished, Failed}
  {
  }

  /**
   A start begins a new epoch if and only if the job was created or has come to an end; a job that is
   initializing or running is left as it is, and a canceling one is refused.
   */
  lemma StartSucceedsIff(j: Job, now: int)
    requires j.status.Valid()
    ensures j.status.state in {Initializing, Running} ==> RequestStart(j, now) == Ok((j, false))
    ensures j.status.state == Canceling ==> RequestStart(j, now) == Err(InvalidTransition)
    ensures j.status.state in {Created, Canceled, Finished, Failed} ==>
      && RequestStart(j, now).Ok? && RequestStart(j, now).value.1
      && var next := RequestStart(j, now).value.0;
      && next.status.desired == DesiredRunning && next.status.state == Initializing
      && next.status.epoch == j.status.epoch + 1
      && next.status.restartCount == j.status.restartCount + (if j.status.state == Created then 0 else 1)
      && next.status.startTime == Some(now) && next.status.endTime == None && next.status.failure == None
      && next.status.lastCheckpoint == j.status.lastCheckpoint && next.spec == j.spec && next.updatedAt == now
  {
  }

  /** A stop cancels a job that is initializing or running, and leaves every other one as it is. */
  lemma StopSucceedsIff(j: Job, now: int)
    requires j.status.Valid()
    ensures j.status.state in {Created, Canceling, Canceled, Finished, Failed} ==> RequestStop(j, now) == Ok((j, false))
    ensures j.status.state in {Initializing, Running} ==>
      RequestStop(j, now) ==
        Ok((j.(status := j.status.(desired := DesiredStopped, state := Canceling), updatedAt := now), true))
  {
  }

  /** The transitions a report may make. */
  const REPORTED: set<(JobState, JobState)> := {
    (Initializing, Running), (Initializing, Failed), (Running, Finished), (Running, Failed),
    (Canceling, Canceled), (Canceling, Failed)}

  /**
   A report is accepted if and only if it is of the current epoch and either repeats the state or makes one of
   the six transitions, with a failure exactly if it reports failure.
   */
  lemma ReportSucceedsIff(j: Job, epoch: int, state: JobState, failure: Option<Failure>, now: int)
    ensures epoch != j.status.epoch ==> Advance(j, epoch, state, failure, now) == Err(StaleEpoch)
    ensures epoch == j.status.epoch && state == j.status.state ==>
      Advance(j, epoch, state, failure, now) == Ok((j, false))
    ensures epoch == j.status.epoch && state != j.status.state ==>
      (Advance(j, epoch, state, failure, now).Ok? <==>
         (j.status.state, state) in REPORTED && (failure.Some? <==> state == Failed))
    ensures epoch == j.status.epoch && Advance(j, epoch, state, failure, now).Err? ==>
      Advance(j, epoch, state, failure, now) == Err(InvalidTransition)
    ensures state != j.status.state && Advance(j, epoch, state, failure, now).Ok? ==>
      && Advance(j, epoch, state, failure, now).value.1
      && var next := Advance(j, epoch, state, failure, now).value.0;
      && next.status.state == state && next.status.failure == failure && next.updatedAt == now
      && (state == Running ==> next.status.desired == j.status.desired && next.status.endTime == None)
      && (state != Running ==> next.status.desired == DesiredStopped && next.status.endTime == Some(now))
      && next.status.startTime == j.status.startTime && next.status.lastCheckpoint == j.status.lastCheckpoint
      && next.spec == j.spec
  {
  }

  // ----- what the lifecycle keeps

  /** The restart counter is one behind the epoch, once there is one. */
  predicate CountsRestarts(s: Status) { s.restartCount == if s.epoch > 0 then s.epoch - 1 else 0 }

  datatype Op =
    | Start(now: int)
    | Stop(now: int)
    | Report(epoch: int, state: JobState, failure: Option<Failure>, now: int)
    | Replace(spec: Spec, now: int)

  /** A lifecycle function applied to a job. */
  function Applied(j: Job, op: Op): Result<(Job, bool)> {
    match op
    case Start(now) => RequestStart(j, now)
    case Stop(now) => RequestStop(j, now)
    case Report(epoch, state, failure, now) => Advance(j, epoch, state, failure, now)
    case Replace(spec, now) =>
      var next :- ReplaceSpec(j, spec, now);
      Ok((next, true))
  }

  /** A well-formed report of failure names a reason and a time. */
  predicate WellFormed(op: Op) {
    op.Report? && op.failure.Some? ==> !IsBlank(op.failure.value.reason) && op.failure.value.timestamp != 0
  }

  /** Only a start raises the epoch, by one; the restart counter follows; identity is kept. */
  lemma LifecycleKeepsIdentity(j: Job, op: Op)
    requires Applied(j, op).Ok?
    ensures var (next, changed) := Applied(j, op).value;
      && (0 <= j.status.epoch && CountsRestarts(j.status) ==> CountsRestarts(next.status))
      && next.status.epoch == j.status.epoch + (if op.Start? && changed then 1 else 0)
      && next.key == j.key && next.uid == j.uid && next.version == j.version && next.createdAt == j.createdAt
      && (!changed ==> next == j)
  {
  }

  /** Every lifecycle function keeps a valid status valid. */
  lemma LifecycleKeepsStatus(j: Job, op: Op)
    requires j.status.Valid() && WellFormed(op) && Applied(j, op).Ok?
    ensures Applied(j, op).value.0.status.Valid()
  {
  }

  /** From a valid status the lifecycle moves only along these edges. */
  predicate Edge(from: JobState, to: JobState) {
    || (to.Initializing? && (from.Created? || Terminal(from)))
    || (to.Canceling? && (from.Initializing? || from.Running?))
    || (from, to) in REPORTED
  }

  lemma LifecycleMovesAlongEdges(j: Job, op: Op)
    requires j.status.Valid() && Applied(j, op).Ok?
    ensures var (next, changed) := Applied(j, op).value;
      next.status.state == j.status.state || Edge(j.status.state, next.status.state)
    ensures op.Start? ==> (Applied(j, op).value.1 <==> j.status.state.Created? || Terminal(j.status.state))
    ensures op.Stop? ==> (Applied(j, op).value.1 <==> j.status.state.Initializing? || j.status.state.Running?)
  {
  }
}
