/**
 The versioned job store (control-plane/job/memory/repository.go) under clients that read a job, apply
 a lifecycle function and write it back with the version they read.
 */
module JobHistory {
  import opened Outcomes
  import opened Jobs
  import Runs

  type Table = map<Key, Job>

  // ----- one function per repository call

  function AfterCreate(jobs: Table, candidate: Job): Result<Table> {
    if !candidate.Valid() then Err(InvalidJob)
    else if candidate.key in jobs then Err(AlreadyExists)
    else Ok(jobs[candidate.key := candidate])
  }

  function AfterUpdate(jobs: Table, candidate: Job, expectedVersion: int): Result<Table> {
    if !candidate.Valid() then Err(InvalidJob)
    else if candidate.key !in jobs then Err(NotFound)
    else
      var current := jobs[candidate.key];
      if current.version != expectedVersion then Err(Conflict)
      else if current.uid != candidate.uid || current.createdAt != candidate.createdAt then Err(Conflict)
      else if candidate.status.epoch < current.status.epoch then Err(StaleEpoch)
      else Ok(jobs[candidate.key := candidate.(version := current.version + 1)])
  }

  function AfterDelete(jobs: Table, key: Key, expectedVersion: int): Result<Table> {
    if !key.Valid() then Err(InvalidJob)
    else if expectedVersion <= 0 then Err(Conflict)
    else if key !in jobs then Err(NotFound)
    else if jobs[key].version != expectedVersion then Err(Conflict)
    else Ok(jobs - {key})
  }

  /** A creation succeeds if and only if the job is valid and its key is free. */
  lemma CreationSucceedsIff(jobs: Table, candidate: Job)
    ensures AfterCreate(jobs, candidate).Ok? <==> candidate.Valid() && candidate.key !in jobs
    ensures candidate.Valid() && candidate.key in jobs ==> AfterCreate(jobs, candidate) == Err(AlreadyExists)
    ensures AfterCreate(jobs, candidate).Ok? ==>
      AfterCreate(jobs, candidate).value == jobs[candidate.key := candidate]
  {
  }

  /**
   An update succeeds if and only if the job is valid and stored at the version named, with the same UID and
   time of creation and no later epoch; it is stored at the next version.
   */
  lemma UpdateSucceedsIff(jobs: Table, candidate: Job, expectedVersion: int)
    ensures AfterUpdate(jobs, candidate, expectedVersion).Ok? <==>
      && candidate.Valid() && candidate.key in jobs
      && var was := jobs[candidate.key];
      && was.version == expectedVersion && was.uid == candidate.uid && was.createdAt == candidate.createdAt
      && was.status.epoch <= candidate.status.epoch
    ensures candidate.Valid() && candidate.key in jobs && jobs[candidate.key].version != expectedVersion ==>
      AfterUpdate(jobs, candidate, expectedVersion) == Err(Conflict)
    ensures AfterUpdate(jobs, candidate, expectedVersion).Ok? ==>
      AfterUpdate(jobs, candidate, expectedVersion).value ==
        jobs[candidate.key := candidate.(version := expectedVersion + 1)]
  {
    hide Job.Valid;
  }

  /** A deletion succeeds if and only if the job is stored at the version named. */
  lemma DeletionSucceedsIff(jobs: Table, key: Key, expectedVersion: int)
    ensures AfterDelete(jobs, key, expectedVersion).Ok? <==>
      && IsDnsLabel(key.namespace) && IsDnsLabel(key.name) && 0 < expectedVersion
      && key in jobs && jobs[key].version == expectedVersion
    ensures AfterDelete(jobs, key, expectedVersion).Ok? ==>
      AfterDelete(jobs, key, expectedVersion).value == jobs - {key}
  {
  }

  class Repository {
    var jobs: Table

    constructor ()
      ensures jobs == map[]
    {
      jobs := map[];
    }

    method Create(candidate: Job) returns (r: Result<Job>)
      modifies this
      ensures r == match AfterCreate(old(jobs), candidate) case Ok(_) => Ok(candidate) case Err(e) => Err(e)
      ensures jobs == match AfterCreate(old(jobs), candidate) case Ok(t) => t case Err(_) => old(jobs)
    {
      if !candidate.Valid() {
        return Err(InvalidJob);
      }
      if candidate.key in jobs {
        return Err(AlreadyExists);
      }
      jobs := jobs[candidate.key := candidate];
      return Ok(candidate);
    }

    method Update(candidate: Job, expectedVersion: int) returns (r: Result<Job>)
      modifies this
      ensures jobs == match AfterUpdate(old(jobs), candidate, expectedVersion) case Ok(t) => t case Err(_) => old(jobs)
      ensures match AfterUpdate(old(jobs), candidate, expectedVersion)
              case Ok(t) => r == Ok(t[candidate.key]) && r.value.version == expectedVersion + 1
              case Err(e) => r == Err(e)
    {
      if !candidate.Valid() {
        return Err(InvalidJob);
      }
      if candidate.key !in jobs {
        return Err(NotFound);
      }
      var current := jobs[candidate.key];
      if current.version != expectedVersion {
        return Err(Conflict);
      }
      if current.uid != candidate.uid || current.createdAt != candidate.createdAt {
        return Err(Conflict);
      }
      if candidate.status.epoch < current.status.epoch {
        return Err(StaleEpoch);
      }
      var stored := candidate.(version := current.version + 1);
      jobs := jobs[candidate.key := stored];
      return Ok(stored);
    }

    method Delete(key: Key, expectedVersion: int) returns (r: Result<()>)
      modifies this
      ensures jobs == match AfterDelete(old(jobs), key, expectedVersion) case Ok(t) => t case Err(_) => old(jobs)
      ensures r.Ok? <==> AfterDelete(old(jobs), key, expectedVersion).Ok?
    {
      if !key.Valid() {
        return Err(InvalidJob);
      }
      if expectedVersion <= 0 {
        return Err(Conflict);
      }
      if key !in jobs {
        return Err(NotFound);
      }
      if jobs[key].version != expectedVersion {
        return Err(Conflict);
      }
      jobs := jobs - {key};
      return Ok(());
    }
  }

  // ----- histories

  /** What was stored, and the lifecycle function that produced it (none for the creation). */
  datatype Write = Write(op: Option<Op>, changed: bool, job: Job)

  /** The table, everything ever stored under each UID, and every job anyone can have read. */
  datatype State = State(jobs: Table, history: map<string, seq<Write>>, seen: set<Job>)

  datatype Event =
    /** A job made by New with a UID never used before. */
    | Creates(key: Key, uid: string, spec: Spec, now: int)
    /** A client applies a function to a job it once read and writes the result back. */
    | WritesBack(snapshot: Job, op: Op)
    | Deletes(key: Key, expectedVersion: int)

  const Init := State(map[], map[], {})

  function Next(s: State, e: Event): State {
    match e
    case Creates(key, uid, spec, now) =>
      var made := New(key, uid, spec, now);
      if uid in s.history || made.Err? then s else
      (match AfterCreate(s.jobs, made.value)
       case Err(_) => s
       case Ok(jobs) => State(jobs, s.history[uid := [Write(None, true, made.value)]], s.seen + {made.value}))
    case WritesBack(snapshot, op) =>
      if snapshot !in s.seen || Applied(snapshot, op).Err? then s else
      var (candidate, changed) := Applied(snapshot, op).value;
      (match AfterUpdate(s.jobs, candidate, snapshot.version)
       case Err(_) => s
       case Ok(jobs) =>
         if candidate.key !in jobs || candidate.uid !in s.history then s else
         var stored := jobs[candidate.key];
         State(jobs, s.history[candidate.uid := s.history[candidate.uid] + [Write(Some(op), changed, stored)]],
               s.seen + {stored}))
    case Deletes(key, expectedVersion) =>
      match AfterDelete(s.jobs, key, expectedVersion)
      case Err(_) => s
      case Ok(jobs) => s.(jobs := jobs)
  }

  function Run(s: State, events: seq<Event>): State {
    Runs.Run(Next, s, events)
  }

  /** How many starts a history accepted. */
  function Starts(h: seq<Write>): nat {
    if h == [] then 0 else
    Starts(h[..|h| - 1]) + (if h[|h| - 1].op.Some? && h[|h| - 1].op.value.Start? && h[|h| - 1].changed then 1 else 0)
  }

  /** The i-th write applied its function to exactly what the write before it stored. */
  predicate StepOf(h: seq<Write>, i: nat)
    requires 0 < i < |h|
  {
    && h[i].op.Some? && Applied(h[i - 1].job, h[i].op.value).Ok?
    && var (next, changed) := Applied(h[i - 1].job, h[i].op.value).value;
       h[i].changed == changed && h[i].job == next.(version := h[i - 1].job.version + 1)
  }

  /** A path of the lifecycle: from a new job, one function per write, no write lost. */
  ghost predicate Path(uid: string, h: seq<Write>) {
    && h != [] && h[0].op.None? && h[0].job.status.epoch == 0 && h[0].job.status.state.Created?
    && (forall i :: 0 < i < |h| ==> StepOf(h, i))
    && (forall i :: 0 <= i < |h| ==> h[i].job.uid == uid && h[i].job.version == i + 1)
    && (forall i :: 0 <= i < |h| ==> h[i].job.key == h[0].job.key && h[i].job.createdAt == h[0].job.createdAt)
    && (forall i :: 0 <= i < |h| ==> h[i].job.status.Valid() && CountsRestarts(h[i].job.status))
    && h[|h| - 1].job.status.epoch == Starts(h)
  }

  ghost predicate Paths(history: map<string, seq<Write>>) {
    forall uid :: uid in history ==> Path(uid, history[uid])
  }

  /** The stored job is the last of its history. */
  ghost predicate Stored(jobs: Table, history: map<string, seq<Write>>) {
    forall key :: key in jobs ==>
      jobs[key].key == key && jobs[key].uid in history && history[jobs[key].uid] != []
      && jobs[key] == Last(history[jobs[key].uid])
  }

  /** Every job read is in its history, at the place its version says. */
  ghost predicate Recorded(seen: set<Job>, history: map<string, seq<Write>>) {
    forall j :: j in seen ==>
      j.uid in history && 0 < j.version <= |history[j.uid]| && history[j.uid][j.version - 1].job == j
  }

  ghost predicate Inv(s: State) {
    Paths(s.history) && Stored(s.jobs, s.history) && Recorded(s.seen, s.history)
  }

  function Last(h: seq<Write>): Job
    requires h != []
  {
    h[|h| - 1].job
  }

  // ----- every run keeps the histories

  lemma OneNamePerUid(s: State, uid: string, h: seq<Write>)
    requires Inv(s) && Path(uid, h)
    requires uid in s.history ==> s.history[uid] <= h
    ensures forall key :: key in s.jobs && s.jobs[key].uid == uid ==> key == Last(h).key
  {
    hide StepOf, Starts, CountsRestarts, Status.Valid;
    if uid in s.history {
      assert s.history[uid][0] == h[0];
      assert Path(uid, s.history[uid]);
    }
  }

  lemma StoredWith(jobs: Table, history: map<string, seq<Write>>, uid: string, h: seq<Write>)
    requires Stored(jobs, history) && h != [] && Last(h).uid == uid
    requires forall key :: key in jobs && jobs[key].uid == uid ==> key == Last(h).key
    ensures Stored(jobs[Last(h).key := Last(h)], history[uid := h])
  {
  }

  lemma RecordedWith(seen: set<Job>, history: map<string, seq<Write>>, uid: string, h: seq<Write>)
    requires Recorded(seen, history) && h != [] && Last(h).uid == uid && Last(h).version == |h|
    requires uid in history ==> history[uid] <= h
    ensures Recorded(seen + {Last(h)}, history[uid := h])
  {
  }

  /** Storing the last of a path that extends the recorded history. */
  lemma StoringKeepsInv(s: State, uid: string, h: seq<Write>)
    requires Inv(s) && Path(uid, h)
    requires uid in s.history ==> s.history[uid] <= h
    ensures Inv(State(s.jobs[Last(h).key := Last(h)], s.history[uid := h], s.seen + {Last(h)}))
  {
    assert Last(h).uid == uid && Last(h).version == |h|;
    hide Path, Stored, Recorded;
    OneNamePerUid(s, uid, h);
    StoredWith(s.jobs, s.history, uid, h);
    RecordedWith(s.seen, s.history, uid, h);
  }

  lemma NewIsPath(key: Key, uid: string, spec: Spec, now: int)
    requires New(key, uid, spec, now).Ok?
    ensures Path(uid, [Write(None, true, New(key, uid, spec, now).value)])
  {
    var h := [Write(None, true, New(key, uid, spec, now).value)];
    assert h[..0] == [];
  }

  lemma CreationKeepsInv(s: State, key: Key, uid: string, spec: Spec, now: int)
    requires Inv(s)
    ensures Inv(Next(s, Creates(key, uid, spec, now)))
  {
    hide Inv, Path, Job.Valid;
    if uid !in s.history && New(key, uid, spec, now).Ok? {
      NewIsPath(key, uid, spec, now);
      StoringKeepsInv(s, uid, [Write(None, true, New(key, uid, spec, now).value)]);
    }
  }

  lemma DeletionKeepsInv(s: State, key: Key, expectedVersion: int)
    requires Inv(s)
    ensures Inv(Next(s, Deletes(key, expectedVersion)))
  {
    hide Path, Recorded;
  }

  /** A write is accepted only if what was read is what is stored. */
  lemma AcceptedWriteReadTheCurrent(s: State, snapshot: Job, op: Op)
    requires Inv(s) && snapshot in s.seen && Applied(snapshot, op).Ok?
    requires AfterUpdate(s.jobs, Applied(snapshot, op).value.0, snapshot.version).Ok?
    ensures snapshot.key in s.jobs && s.jobs[snapshot.key] == snapshot
    ensures snapshot.uid in s.history && Path(snapshot.uid, s.history[snapshot.uid])
    ensures Last(s.history[snapshot.uid]) == snapshot
  {
    hide Applied, StepOf, Starts, CountsRestarts, Job.Valid, Status.Valid;
    LifecycleKeepsIdentity(snapshot, op);
  }

  lemma PathExtends(uid: string, h: seq<Write>, op: Op)
    requires Path(uid, h) && Applied(Last(h), op).Ok? && Applied(Last(h), op).value.0.Valid()
    ensures var (next, changed) := Applied(Last(h), op).value;
      Path(uid, h + [Write(Some(op), changed, next.(version := Last(h).version + 1))])
  {
    LifecycleKeepsIdentity(Last(h), op);
    var (next, changed) := Applied(Last(h), op).value;
    var longer := h + [Write(Some(op), changed, next.(version := Last(h).version + 1))];
    assert longer[..|longer| - 1] == h;
    forall i | 0 < i < |longer|
      ensures StepOf(longer, i)
    {
      if i < |h| {
        assert StepOf(h, i);
      }
    }
  }

  lemma AcceptedIsValid(jobs: Table, candidate: Job, expectedVersion: int)
    requires AfterUpdate(jobs, candidate, expectedVersion).Ok?
    ensures candidate.Valid()
  {
  }

  /** What an accepted write leaves. */
  lemma AcceptedWriteExtends(s: State, snapshot: Job, op: Op)
    requires Inv(s) && snapshot in s.seen && Applied(snapshot, op).Ok?
    requires AfterUpdate(s.jobs, Applied(snapshot, op).value.0, snapshot.version).Ok?
    ensures snapshot.uid in s.history
    ensures var (next, changed) := Applied(snapshot, op).value;
      var stored := next.(version := snapshot.version + 1);
      Next(s, WritesBack(snapshot, op)) ==
      State(s.jobs[snapshot.key := stored],
            s.history[snapshot.uid := s.history[snapshot.uid] + [Write(Some(op), changed, stored)]], s.seen + {stored})
  {
    hide Applied, Inv, Path, Job.Valid;
    LifecycleKeepsIdentity(snapshot, op);
    AcceptedWriteReadTheCurrent(s, snapshot, op);
  }

  lemma WriteBackKeepsInv(s: State, snapshot: Job, op: Op)
    requires Inv(s)
    ensures Inv(Next(s, WritesBack(snapshot, op)))
  {
    hide Applied, Path, Inv, AfterUpdate;
    if snapshot in s.seen && Applied(snapshot, op).Ok?
       && AfterUpdate(s.jobs, Applied(snapshot, op).value.0, snapshot.version).Ok? {
      var (next, changed) := Applied(snapshot, op).value;
      AcceptedWriteReadTheCurrent(s, snapshot, op);
      assert next.Valid() by {
        AcceptedIsValid(s.jobs, next, snapshot.version);
      }
      AcceptedWriteExtends(s, snapshot, op);
      LifecycleKeepsIdentity(snapshot, op);
      hide Next;
      PathExtends(snapshot.uid, s.history[snapshot.uid], op);
      StoringKeepsInv(s, snapshot.uid,
                      s.history[snapshot.uid] + [Write(Some(op), changed, next.(version := snapshot.version + 1))]);
    }
  }

  lemma NextKeepsInv(s: State, e: Event)
    requires Inv(s)
    ensures Inv(Next(s, e))
  {
    match e {
      case Creates(key, uid, spec, now) => CreationKeepsInv(s, key, uid, spec, now);
      case WritesBack(snapshot, op) => WriteBackKeepsInv(s, snapshot, op);
      case Deletes(key, expectedVersion) => DeletionKeepsInv(s, key, expectedVersion);
    }
  }

  lemma {:induction false} RunKeepsInv(s: State, events: seq<Event>)
    requires Inv(s)
    ensures Inv(Run(s, events))
    decreases |events|
  {
    hide Inv, Next;
    if events != [] {
      NextKeepsInv(s, events[0]);
      RunKeepsInv(Next(s, events[0]), events[1..]);
    }
  }

  // ----- what clients can rely on

  /**
   In every reachable state, a client's write is stored if and only if the job it read is the one
   stored now and what it computed from it is valid. No write is lost and none is merged.
   */
  lemma WriteIsAcceptedIff(events: seq<Event>, snapshot: Job, op: Op)
    requires snapshot in Run(Init, events).seen && Applied(snapshot, op).Ok?
    ensures
      var jobs, candidate := Run(Init, events).jobs, Applied(snapshot, op).value.0;
      AfterUpdate(jobs, candidate, snapshot.version).Ok?
      <==> candidate.Valid() && snapshot.key in jobs && jobs[snapshot.key] == snapshot
  {
    hide Applied, Path, Inv, Run, Job.Valid;
    var s := Run(Init, events);
    assert Inv(s) by {
      InitialInv();
      RunKeepsInv(Init, events);
    }
    LifecycleKeepsIdentity(snapshot, op);
    if AfterUpdate(s.jobs, Applied(snapshot, op).value.0, snapshot.version).Ok? {
      AcceptedWriteReadTheCurrent(s, snapshot, op);
    }
  }

  lemma InitialInv()
    ensures Inv(Init)
  {
  }

  /**
   Everything ever stored under a UID is one path of the lifecycle: versions count from one, the
   epoch counts the accepted starts, the restart counter is one behind it, every status is valid and
   every change of state is an edge of the lifecycle.
   */
  lemma HistoryIsLifecyclePath(events: seq<Event>, uid: string)
    requires uid in Run(Init, events).history
    ensures Path(uid, Run(Init, events).history[uid])
    ensures forall i :: 0 < i < |Run(Init, events).history[uid]| ==>
      var h := Run(Init, events).history[uid];
      h[i].job.status.state == h[i - 1].job.status.state || Edge(h[i - 1].job.status.state, h[i].job.status.state)
  {
    InitialInv();
    RunKeepsInv(Init, events);
    var h := Run(Init, events).history[uid];
    hide Run, Starts, CountsRestarts;
    forall i | 0 < i < |h|
      ensures h[i].job.status.state ==
        h[i - 1].job.status.state || Edge(h[i - 1].job.status.state, h[i].job.status.state)
    {
      EdgeOfStep(h, i);
    }
  }

  lemma EdgeOfStep(h: seq<Write>, i: nat)
    requires 0 < i < |h| && StepOf(h, i) && h[i - 1].job.status.Valid()
    ensures h[i].job.status.state == h[i - 1].job.status.state || Edge(h[i - 1].job.status.state, h[i].job.status.state)
  {
    LifecycleMovesAlongEdges(h[i - 1].job, h[i].op.value);
  }

  /** No name holds the UID, and the UID was used. */
  predicate Gone(s: State, uid: string) {
    uid in s.history && forall key :: key in s.jobs ==> s.jobs[key].uid != uid
  }

  lemma GoneStays(s: State, uid: string, e: Event)
    requires Inv(s) && Gone(s, uid)
    ensures Gone(Next(s, e), uid)
  {
    hide Path, Applied, Job.Valid;
    if e.WritesBack? && Applied(e.snapshot, e.op).Ok? {
      LifecycleKeepsIdentity(e.snapshot, e.op);
    }
  }

  lemma {:induction false} GoneForever(s: State, uid: string, events: seq<Event>)
    requires Inv(s) && Gone(s, uid)
    ensures Gone(Run(s, events), uid)
    decreases |events|
  {
    hide Inv, Gone, Next;
    if events != [] {
      GoneStays(s, uid, events[0]);
      NextKeepsInv(s, events[0]);
      GoneForever(Next(s, events[0]), uid, events[1..]);
    }
  }

  /**
   After a job is deleted, whatever is created under its name and whatever happens then, nobody who
   read the deleted job can write it back.
   */
  lemma DeletedIsNeverWrittenBack(before: seq<Event>, key: Key, after: seq<Event>, snapshot: Job, op: Op)
    requires key in Run(Init, before).jobs && key.Valid()
    requires snapshot.uid == Run(Init, before).jobs[key].uid
    requires Applied(snapshot, op).Ok?
    ensures
      var s := Run(Init, before);
      var later := Run(Next(s, Deletes(key, s.jobs[key].version)), after);
      AfterUpdate(later.jobs, Applied(snapshot, op).value.0, snapshot.version).Err?
  {
    hide Applied, Path, Job.Valid;
    InitialInv();
    RunKeepsInv(Init, before);
    var s := Run(Init, before);
    DeletedIsGone(s, key);
    DeletionKeepsInv(s, key, s.jobs[key].version);
    GoneForever(Next(s, Deletes(key, s.jobs[key].version)), snapshot.uid, after);
    LifecycleKeepsIdentity(snapshot, op);
  }

  lemma DeletedIsGone(s: State, key: Key)
    requires Inv(s) && key in s.jobs && key.Valid()
    ensures Gone(Next(s, Deletes(key, s.jobs[key].version)), s.jobs[key].uid)
  {
    hide StepOf, Starts, CountsRestarts, Status.Valid;
    var uid := s.jobs[key].uid;
    OneNamePerUid(s, uid, s.history[uid]);
  }
}
