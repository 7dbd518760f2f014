/** What becomes of one connection over a run of careful callers: its versions, its generations and its settings. */
module ConnectionHistory {
  import opened Outcomes
  import opened Connections
  import opened ConnectionStore
  import opened ConnectionInvariants
  import opened ConnectionRuns

  /** The connection stored under a UID. */
  function Current(s: Store, uid: string): Option<Connection> {
    if uid in s.uidIndex && s.uidIndex[uid] in s.connections then Some(s.connections[s.uidIndex[uid]]) else None
  }

  /** Whether an event is reported as having changed the connection. */
  ghost function Changes(s: State, e: Event, uid: string): nat {
    if e.Mutate? && TakesEffect(s.store, e.m) && Allowed(s, e.m, e.origin)
       && Reports(MutateIn(s.store, e.m).value.result, uid)
    then 1 else 0
  }

  predicate Reports(r: MutationResult, uid: string) {
    r.outcome.Changed? && r.connection.Some? && r.connection.value.uid == uid
  }

  /** Recorded generations are still recorded, as they were. */
  ghost predicate Keeps(before: Generations, after: Generations, uid: string) {
    uid in before && uid in after && forall n :: n in before[uid] ==> n in after[uid] && after[uid][n] == before[uid][n]
  }

  /** A connection and the one stored under its UID later, if it is still there. */
  ghost predicate Becomes(s: Store, t: Store, uid: string, changes: nat) {
    var c, d := Current(s, uid), Current(t, uid);
    && (c.None? ==> d.None?)
    && (c.Some? && d.Some? ==>
          && d.value.version == c.value.version + changes && (changes == 0 ==> d == c)
          && Keeps(s.generations, t.generations, uid)
          && (c.value.state == Active ==> d.value.current.settings == c.value.current.settings))
  }

  // ----- one event

  lemma CurrentIsRecorded(s: Store, uid: string, clock: int)
    requires Inv(s, clock) && Current(s, uid).Some?
    ensures uid in s.generations
  {
    hide Quotas, Sound, Present, Numbered, Indexed;
  }

  /** An event that leaves the UID's entries alone. */
  lemma UntouchedBecomes(s: Store, t: Store, uid: string, clock: int)
    requires Inv(s, clock) && Untouched(s, t, uid)
    ensures Becomes(s, t, uid, 0)
  {
    hide Inv;
    if Current(s, uid).Some? {
      CurrentIsRecorded(s, uid, clock);
    }
  }

  /** The UID's entries are the same. */
  predicate Untouched(s: Store, t: Store, uid: string) {
    Current(t, uid) == Current(s, uid)
    && (uid in s.generations ==> uid in t.generations && t.generations[uid] == s.generations[uid])
  }

  lemma CreationLeavesOthers(s: Store, m: Mutation, uid: string)
    requires CreateIn(s, m).Ok? && m.candidate.value.uid != uid
    requires (uid in s.uidIndex ==> s.uidIndex[uid] in s.connections)
    ensures Untouched(s, CreateIn(s, m).value.store, uid)
  {
    hide Connection.Valid, ResourceKey;
  }

  lemma UpdateLeavesOthers(s: Store, m: Mutation, uid: string)
    requires UpdateIn(s, m).Ok? && m.candidate.value.uid != uid
    requires uid in s.uidIndex ==> s.uidIndex[uid] != ResourceKey(m.tenantId, m.name)
    ensures Untouched(s, UpdateIn(s, m).value.store, uid)
  {
    hide Connection.Valid, ResourceKey;
  }

  lemma DeletionLeavesOthers(s: Store, m: Mutation, uid: string)
    requires DeleteIn(s, m).Ok? && Target(s, m).value.uid != uid
    requires uid in s.uidIndex ==> s.uidIndex[uid] != ResourceKey(m.tenantId, m.name)
    ensures Untouched(s, DeleteIn(s, m).value.store, uid)
  {
    hide HasActiveTest, ResourceKey;
  }

  lemma DeletionRemoves(s: Store, m: Mutation)
    requires DeleteIn(s, m).Ok?
    ensures Current(DeleteIn(s, m).value.store, Target(s, m).value.uid).None?
  {
    hide HasActiveTest, ResourceKey;
  }

  lemma IndexLeadsSomewhere(s: Store, uid: string, clock: int)
    requires Inv(s, clock) && uid in s.uidIndex
    ensures s.uidIndex[uid] in s.connections
  {
    hide Quotas, Sound, Present, Numbered, Connection.Valid, ResourceKey;
  }

  lemma CreationBecomes(s: State, m: Mutation, origin: Origin, c: Connection)
    requires Known(s) && m.kind.Create? && Honest(s, m, origin) && CreateIn(s.store, m).Ok? && c in s.seen
    ensures m.candidate.value.uid != c.uid && Becomes(s.store, CreateIn(s.store, m).value.store, c.uid, 0)
  {
    hide Inv, Exact, Seen, CreateIn, Becomes, Untouched;
    assert m.candidate.Some? && m.candidate.value.uid != c.uid by {
      ReplyShows(s.store, m);
    }
    if c.uid in s.store.uidIndex {
      IndexLeadsSomewhere(s.store, c.uid, s.clock);
    }
    CreationLeavesOthers(s.store, m, c.uid);
    UntouchedBecomes(s.store, CreateIn(s.store, m).value.store, c.uid, s.clock);
  }

  /** Another UID is stored under another key. */
  lemma OnlyTarget(s: Store, m: Mutation, uid: string, clock: int)
    requires Inv(s, clock) && Target(s, m).Ok? && uid != Target(s, m).value.uid
    ensures uid in s.uidIndex ==> s.uidIndex[uid] != ResourceKey(m.tenantId, m.name)
  {
    hide Quotas, Sound, Present, Numbered, Connection.Valid, ResourceKey;
  }

  lemma OtherUpdateBecomes(s: Store, m: Mutation, uid: string, clock: int)
    requires Inv(s, clock) && UpdateIn(s, m).Ok? && m.candidate.value.uid != uid
    ensures Becomes(s, UpdateIn(s, m).value.store, uid, 0)
  {
    assert Target(s, m).Ok? && m.candidate.Some? && m.candidate.value.uid == Target(s, m).value.uid;
    hide Inv, Becomes, Untouched, UpdateIn, Target, ResourceKey;
    OnlyTarget(s, m, uid, clock);
    UpdateLeavesOthers(s, m, uid);
    UntouchedBecomes(s, UpdateIn(s, m).value.store, uid, clock);
  }

  /** What an honest update that is accepted stores: the edit of what was stored. */
  lemma UpdateStoresEdit(s: State, m: Mutation, origin: Origin)
    requires Known(s) && Honest(s, m, origin) && UpdateIn(s.store, m).Ok? && !m.kind.Create? && !m.kind.Test?
    ensures var c, t := m.candidate.value, UpdateIn(s.store, m).value;
      && Current(s.store, c.uid) == Some(Target(s.store, m).value) && Current(t.store, c.uid) == Some(c)
      && Edited(Target(s.store, m).value, origin.edit) == Ok(c)
      && KeepsContent(c, Target(s.store, m).value)
  {
    hide Inv, Exact, Seen, Connection.Valid, ResourceKey, Edited, RecordedFor;
    TargetIsStored(s.store, m, s.clock);
    EditsKeep(origin.snapshot, origin.edit);
    SnapshotIsCurrent(s, m, origin.snapshot);
  }

  lemma UpdateBecomes(s: State, m: Mutation, origin: Origin)
    requires Known(s) && Honest(s, m, origin) && UpdateIn(s.store, m).Ok? && !m.kind.Create? && !m.kind.Test?
    ensures var r, uid := UpdateIn(s.store, m).value, m.candidate.value.uid;
      Becomes(s.store, r.store, uid, if r.result.outcome.Changed? then 1 else 0)
  {
    hide Inv, Exact, Seen, Connection.Valid, ResourceKey, Edited, Current;
    UpdateStoresEdit(s, m, origin);
    EditsKeep(Target(s.store, m).value, origin.edit);
    UpdateRecords(s.store, m, s.clock);
  }

  lemma DeletionBecomes(s: Store, m: Mutation, uid: string, clock: int)
    requires Inv(s, clock) && DeleteIn(s, m).Ok?
    ensures Becomes(s, DeleteIn(s, m).value.store, uid, 0)
  {
    assert Target(s, m).Ok?;
    hide Inv, Untouched, DeleteIn, Target, ResourceKey, Current;
    DeletionRemoves(s, m);
    if uid != Target(s, m).value.uid {
      hide Becomes;
      OnlyTarget(s, m, uid, clock);
      DeletionLeavesOthers(s, m, uid);
      UntouchedBecomes(s, DeleteIn(s, m).value.store, uid, clock);
    }
  }

  lemma TestBecomes(s: Store, m: Mutation, uid: string, clock: int)
    requires Inv(s, clock) && TestIn(s, m).Ok?
    ensures Becomes(s, TestIn(s, m).value.store, uid, 0)
  {
    hide Inv, TestOperation.Valid, LimitExceeded;
    UntouchedBecomes(s, TestIn(s, m).value.store, uid, clock);
  }

  lemma MutationBecomes(s: State, m: Mutation, origin: Origin, c: Connection)
    requires Known(s) && Honest(s, m, origin) && MutateIn(s.store, m).Ok? && c in s.seen
    ensures var r := MutateIn(s.store, m).value;
      Becomes(s.store, r.store, c.uid, if Reports(r.result, c.uid) then 1 else 0)
  {
    hide CreateIn, UpdateIn, DeleteIn, TestIn, Becomes, Inv, Exact, Seen, Honest;
    ReplyShows(s.store, m);
    match m.kind
    case Create => CreationBecomes(s, m, origin, c);
    case Delete => DeletionBecomes(s.store, m, c.uid, s.clock);
    case Test => TestBecomes(s.store, m, c.uid, s.clock);
    case Unsupported =>
    case _ =>
      if m.candidate.value.uid == c.uid {
        UpdateBecomes(s, m, origin);
      } else {
        OtherUpdateBecomes(s.store, m, c.uid, s.clock);
      }
  }

  lemma NextOfConnection(s: State, e: Event, c: Connection)
    requires Known(s) && c in s.seen
    ensures Becomes(s.store, Next(s, e).store, c.uid, Changes(s, e, c.uid)) && c in Next(s, e).seen
  {
    hide Inv, Exact, Seen, Honest, Minted, MutateIn, Identity.Valid, IdempotencyKey, Becomes;
    if e.Mutate? && TakesEffect(s.store, e.m) && Allowed(s, e.m, e.origin) {
      MutationBecomes(s, e.m, e.origin, c);
      SameBecomes(s.store, MutateIn(s.store, e.m).value.store, Next(s, e).store, c.uid, Changes(s, e, c.uid));
    } else {
      if !e.Mutate? {
        hide Next;
        OnlyMutationsChange(s, e);
      }
      UntouchedBecomes(s.store, Next(s, e).store, c.uid, s.clock);
    }
  }

  lemma SameBecomes(s: Store, t: Store, u: Store, uid: string, changes: nat)
    requires Becomes(s, t, uid, changes)
    requires u.connections == t.connections && u.uidIndex == t.uidIndex && u.generations == t.generations
    ensures Becomes(s, u, uid, changes)
  {
  }

  // ----- whole runs

  ghost function AllChanges(s: State, events: seq<Event>, uid: string): nat
    decreases |events|
  {
    if events == [] then 0 else Changes(s, events[0], uid) + AllChanges(Next(s, events[0]), events[1..], uid)
  }

  /** Stored and active in every state of the run but possibly the last. */
  ghost predicate ActiveThroughout(s: State, events: seq<Event>, uid: string)
    decreases |events|
  {
    events != [] ==>
      && Current(s.store, uid).Some? && Current(s.store, uid).value.state == Active
      && ActiveThroughout(Next(s, events[0]), events[1..], uid)
  }

  lemma Stepwise(s: Store, t: Store, u: Store, uid: string, first: nat, rest: nat)
    requires Becomes(s, t, uid, first) && Current(s, uid).Some? && Current(t, uid).Some? && Current(u, uid).Some?
    requires Current(u, uid).value.version == Current(t, uid).value.version + rest
    requires (rest == 0 ==> Current(u, uid) == Current(t, uid))
    requires Keeps(t.generations, u.generations, uid)
    ensures Current(u, uid).value.version == Current(s, uid).value.version + first + rest
    ensures first + rest == 0 ==> Current(u, uid) == Current(s, uid)
    ensures Keeps(s.generations, u.generations, uid)
  {
  }

  lemma {:induction false} GoneForever(s: State, events: seq<Event>, c: Connection)
    requires Known(s) && c in s.seen && Current(s.store, c.uid).None?
    ensures Current(Run(s, events).store, c.uid).None?
    decreases |events|
  {
    hide Good, Next, Changes, Current;
    if events != [] {
      NextOfConnection(s, events[0], c);
      NextKeepsGood(s, events[0]);
      GoneForever(Next(s, events[0]), events[1..], c);
    }
  }

  /** The changes of a run, one event after the other. */
  lemma {:induction false} ChangesAddUp(s: State, events: seq<Event>, c: Connection)
    requires Known(s) && c in s.seen && Current(s.store, c.uid).Some? && Current(Run(s, events).store, c.uid).Some?
    ensures var t, uid := Run(s, events).store, c.uid;
      && Current(t, uid).value.version == Current(s.store, uid).value.version + AllChanges(s, events, uid)
      && (AllChanges(s, events, uid) == 0 ==> Current(t, uid) == Current(s.store, uid))
      && Keeps(s.store.generations, t.generations, uid)
    decreases |events|
  {
    hide Good, Next, Changes, Current;
    if events == [] {
      hide Keeps;
      StillKept(s, c.uid);
    } else {
      var next := Next(s, events[0]);
      NextOfConnection(s, events[0], c);
      NextKeepsGood(s, events[0]);
      if Current(next.store, c.uid).None? {
        GoneForever(next, events[1..], c);
        assert false;
      }
      hide Becomes, Keeps;
      ChangesAddUp(next, events[1..], c);
      Stepwise(s.store, next.store, Run(s, events).store, c.uid, Changes(s, events[0], c.uid),
          AllChanges(next, events[1..], c.uid));
    }
  }

  lemma StillKept(s: State, uid: string)
    requires Known(s) && Current(s.store, uid).Some?
    ensures Keeps(s.store.generations, s.store.generations, uid)
  {
    hide Inv, Seen;
    CurrentIsRecorded(s.store, uid, s.clock);
  }

  lemma {:induction false} SettingsStay(s: State, events: seq<Event>, c: Connection)
    requires Known(s) && c in s.seen && ActiveThroughout(s, events, c.uid)
    requires Current(s.store, c.uid).Some? && Current(Run(s, events).store, c.uid).Some?
    ensures Current(Run(s, events).store, c.uid).value.current.settings ==
      Current(s.store, c.uid).value.current.settings
    decreases |events|
  {
    hide Good, Next, Changes, Current;
    if events != [] {
      var next := Next(s, events[0]);
      NextOfConnection(s, events[0], c);
      NextKeepsGood(s, events[0]);
      if Current(next.store, c.uid).None? {
        GoneForever(next, events[1..], c);
        assert false;
      }
      SettingsStay(next, events[1..], c);
    }
  }

  /** What is stored was read, in every reachable state. */
  lemma ReachedIsGood(events: seq<Event>, uid: string)
    requires Current(Run(Init(Careful), events).store, uid).Some?
    ensures Known(Run(Init(Careful), events))
    ensures Current(Run(Init(Careful), events).store, uid).value in Run(Init(Careful), events).seen
    ensures Current(Run(Init(Careful), events).store, uid).value.uid == uid
  {
    InitIsGood(Careful);
    RunKeepsGood(Init(Careful), events);
    hide Run, Quotas, Sound, Captured, Recorded, VersionsIdentify, SeenIsRecorded, Connection.Valid;
  }

  /**
   A connection that is stored at both ends of any part of any run: its version has risen by one for
   every mutation reported as a change and it is untouched if there was none, and every generation
   recorded at the start is recorded at the end, unchanged.
   */
  lemma VersionsCountChanges(before: seq<Event>, after: seq<Event>, uid: string)
    requires Current(Run(Init(Careful), before).store, uid).Some?
    requires Current(Run(Run(Init(Careful), before), after).store, uid).Some?
    ensures var s, t := Run(Init(Careful), before), Run(Run(Init(Careful), before), after);
      && Current(t.store, uid).value.version == Current(s.store, uid).value.version + AllChanges(s, after, uid)
      && (AllChanges(s, after, uid) == 0 ==> Current(t.store, uid) == Current(s.store, uid))
      && Keeps(s.store.generations, t.store.generations, uid)
  {
    hide Good, Run, Current, Keeps;
    ReachedIsGood(before, uid);
    ChangesAddUp(Run(Init(Careful), before), after, Current(Run(Init(Careful), before).store, uid).value);
  }

  /** Over any part of any run, settings do not change while a connection stays active. */
  lemma SettingsHoldWhileActive(before: seq<Event>, after: seq<Event>, uid: string)
    requires ActiveThroughout(Run(Init(Careful), before), after, uid)
    requires Current(Run(Init(Careful), before).store, uid).Some?
    requires Current(Run(Run(Init(Careful), before), after).store, uid).Some?
    ensures Current(Run(Run(Init(Careful), before), after).store, uid).value.current.settings
            == Current(Run(Init(Careful), before).store, uid).value.current.settings
  {
    hide Good, Run, Current, ActiveThroughout;
    ReachedIsGood(before, uid);
    SettingsStay(Run(Init(Careful), before), after, Current(Run(Init(Careful), before).store, uid).value);
  }

  // ----- edits of an older version

  /**
   In every reachable state, an accepted edit of a connection read earlier builds on what is stored if
   and only if the version named in the request is the version that was read.
   */
  lemma EditBuildsOnStoredIff(events: seq<Event>, m: Mutation, snapshot: Connection, edit: Edit)
    requires snapshot in Run(Init(Careful), events).seen && UpdateIn(Run(Init(Careful), events).store, m).Ok?
    requires Edited(snapshot, edit) == Ok(m.candidate.value)
    ensures snapshot == Target(Run(Init(Careful), events).store, m).value <==> snapshot.version == m.expectedVersion
  {
    hide Good, Run, Edited, Connection.Valid, ResourceKey;
    InitIsGood(Careful);
    RunKeepsGood(Init(Careful), events);
    EditsKeep(snapshot, edit);
    if snapshot.version == m.expectedVersion {
      SnapshotIsCurrent(Run(Init(Careful), events), m, snapshot);
    }
  }

  /**
   Without that: an edit of a disabled connection, sent with the next version, is accepted after the
   connection was enabled. It is reported as no change, keeps the version, and stores other settings in
   a connection that is disabled again.
   */
  lemma OlderEditReplacesAsNoChange(s: Store, m: Mutation, read: Connection, enable: Edit, replace: Edit)
    requires read.state == Disabled && enable.SetState? && enable.target == Active && Edited(read, enable).Ok?
    requires replace.Replace? && replace.settings != read.current.settings && Edited(read, replace).Ok?
    requires Target(s, m) == Ok(Edited(read, enable).value)
    requires m.candidate == Some(Edited(read, replace).value)
    ensures UpdateIn(s, m).Ok? && UpdateIn(s, m).value.result.outcome.NoChange?
    ensures var stored := UpdateIn(s, m).value.store.connections[ResourceKey(m.tenantId, m.name)];
      && stored.version == Target(s, m).value.version && stored.state == Disabled && Target(s, m).value.state == Active
      && stored.current.settings != Target(s, m).value.current.settings
  {
  }

  /**
   Two replacements made from one connection share a generation number. The second, sent with the next
   version, is accepted and reported as no change; what it stores is not what is recorded for its generation.
   */
  lemma TwoReplacementsShareAGeneration(
      s: Store, clock: int, m: Mutation, read: Connection, first: Edit, second: Edit)
    requires first.Replace? && Edited(read, first).Ok? && second.Replace? && Edited(read, second).Ok?
    requires Edited(read, first).value.current != read.current && Edited(read, second).value.current != read.current
    requires first.settings != second.settings
    requires Inv(s, clock) && Exact(s)
    requires Target(s, m) == Ok(Edited(read, first).value) && m.candidate == Some(Edited(read, second).value)
    ensures UpdateIn(s, m).Ok? && UpdateIn(s, m).value.result.outcome.NoChange?
    ensures Inv(UpdateIn(s, m).value.store, clock) && !Exact(UpdateIn(s, m).value.store)
  {
    hide Inv, Exact;
    UpdateKeepsInv(s, m, clock);
  }
}
