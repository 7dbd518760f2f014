/**
 Runs of the connection store: mutations interleaved with claims, completions and expiry under a clock
 that never goes back. Any callers send whatever candidates they like, with new identifiers; careful ones
 send what New and the edits make of a connection read at the version they name.
 */
module ConnectionRuns {
  import opened Outcomes
  import opened Connections
  import opened ConnectionStore
  import opened ConnectionInvariants
  import opened ConnectionTests
  import opened ConnectionRules
  import Runs

  datatype Callers = Any | Careful

  /** The store, the last time read, and every connection anyone can have read. */
  datatype State = State(callers: Callers, store: Store, clock: int, seen: set<Connection>)

  /** Where a mutation's candidate or test comes from. */
  datatype Origin = FromNew | EditOf(snapshot: Connection, edit: Edit) | TestOf(snapshot: Connection)

  /** The tests a claim chose, how many of them it claimed, and whether it returned them all. */
  datatype Batch = Batch(ids: seq<string>, claimed: nat, ok: bool)

  datatype Event =
    | Mutate(m: Mutation, origin: Origin)
    | ClaimBatch(r: ClaimRequest, order: seq<string>, batch: Batch)
    | CompleteOne(op: string, executorId: string, completion: Completion, now: int)
    | Pass(now: int, order: seq<string>)
    | SetReferences(uid: string, counts: ReferenceCounts)

  function Init(callers: Callers): State { State(callers, EMPTY, 0, {}) }

  predicate IsNew(c: Connection) { c.version == 1 && c.state == Disabled && c.createdAt == c.updatedAt }

  predicate QueuedFor(t: TestOperation, c: Connection) {
    t.state.Queued? && Captures(t, c) && t.descriptorRevision == c.current.descriptorRevision
  }

  /**
   New connections have UIDs never used; a successor is an edit of a connection read at the expected
   version; a test is new, queued, and captures the generation of a connection that was read.
   */
  ghost predicate Honest(s: State, m: Mutation, origin: Origin) {
    match m.kind
    case Create => m.candidate.Some? ==>
      IsNew(m.candidate.value) && forall c :: c in s.seen ==> c.uid != m.candidate.value.uid
    case Test => m.test.Some? ==>
      && origin.TestOf? && origin.snapshot in s.seen && QueuedFor(m.test.value, origin.snapshot)
      && m.test.value.operationId !in s.store.tests
    case _ => m.candidate.Some? ==>
      && origin.EditOf? && origin.snapshot in s.seen && origin.snapshot.version == m.expectedVersion
      && Edited(origin.snapshot, origin.edit) == Ok(m.candidate.value)
  }

  /** What becomes readable. */
  function Shown(reply: Result<MutationResult>): set<Connection> {
    if reply.Ok? && reply.value.connection.Some? then {reply.value.connection.value} else {}
  }

  /** Identifiers are new, whoever the callers are. */
  ghost predicate Allowed(s: State, m: Mutation, origin: Origin) {
    Minted(s.store, m) && (s.callers.Careful? ==> Honest(s, m, origin))
  }

  ghost function AfterMutation(s: State, m: Mutation, origin: Origin): State {
    if !TakesEffect(s.store, m) || !Allowed(s, m, origin) then s
    else
      var r := Apply(s.store, m);
      s.(store := r.store, seen := s.seen + Shown(r.reply))
  }

  /** Every outcome ClaimTests can have; where contents agree it claims and returns the whole batch. */
  ghost predicate Enabled(s: State, r: ClaimRequest, order: seq<string>, b: Batch) {
    && 0 < r.now && s.clock <= r.now && r.Valid() && IsWalk(s.store.tests, order)
    && IsBatch(ExpireEach(s.store, order, r.now), r, b.ids) && SetOf(b.ids) <= s.store.tests.Keys
    && b.claimed <= |b.ids| && (b.ok ==> b.claimed == |b.ids|) && (s.callers.Careful? ==> b.ok)
  }

  ghost function AfterBatch(s: State, r: ClaimRequest, order: seq<string>, b: Batch): State {
    if !Enabled(s, r, order, b) then s
    else
      assert forall op :: op in b.ids[..b.claimed] ==> op in b.ids;
      s.(store := AfterClaim(s.store, order, b.ids, r, b.claimed, b.ok), clock := r.now)
  }

  ghost function AfterCompletion(s: State, op: string, executorId: string, c: Completion, now: int): State {
    if now < s.clock || CompleteIn(s.store, op, executorId, c, now).Err? then s
    else s.(store := CompleteIn(s.store, op, executorId, c, now).value, clock := now)
  }

  ghost function AfterExpiry(s: State, now: int, order: seq<string>): State {
    if now < s.clock || !IsWalk(s.store.tests, order) then s
    else s.(store := AfterPass(s.store, order, now), clock := now)
  }

  ghost function Next(s: State, e: Event): State {
    match e
    case Mutate(m, origin) => AfterMutation(s, m, origin)
    case ClaimBatch(r, order, b) => AfterBatch(s, r, order, b)
    case CompleteOne(op, executorId, c, now) => AfterCompletion(s, op, executorId, c, now)
    case Pass(now, order) => AfterExpiry(s, now, order)
    case SetReferences(uid, counts) => s.(store := s.store.(references := s.store.references[uid := counts]))
  }

  ghost function Run(s: State, events: seq<Event>): State {
    Runs.Run(Next, s, events)
  }

  // ----- what was read stays true

  /** Versions of one UID identify what was stored. */
  ghost predicate VersionsIdentify(seen: set<Connection>) {
    forall c, d :: c in seen && d in seen && c.uid == d.uid && c.version == d.version ==> c == d
  }

  ghost predicate StoredIsSeen(connections: map<string, Connection>, seen: set<Connection>) {
    forall key :: key in connections ==> connections[key] in seen
  }

  /** Of a stored connection nothing newer was read, and every generation that was read is recorded. */
  ghost predicate SeenIsRecorded(
      seen: set<Connection>, connections: map<string, Connection>, generations: Generations) {
    forall c, key :: c in seen && key in connections && connections[key].uid == c.uid ==>
      c.version <= connections[key].version
      && c.uid in generations && c.current.number in generations[c.uid]
      && generations[c.uid][c.current.number] == c.current
  }

  ghost predicate Seen(s: State) {
    && VersionsIdentify(s.seen) && StoredIsSeen(s.store.connections, s.seen)
    && SeenIsRecorded(s.seen, s.store.connections, s.store.generations)
  }

  ghost predicate Good(s: State) {
    Inv(s.store, s.clock) && (s.callers.Careful? ==> Exact(s.store) && Seen(s))
  }

  ghost predicate Known(s: State) { s.callers.Careful? && Good(s) }

  /** A candidate made from what is stored at the expected version. */
  lemma SnapshotIsCurrent(s: State, m: Mutation, snapshot: Connection)
    requires Known(s) && Target(s.store, m).Ok? && snapshot in s.seen
    requires snapshot.uid == Target(s.store, m).value.uid && snapshot.version == m.expectedVersion
    ensures snapshot == Target(s.store, m).value
  {
    hide Inv;
    assert Target(s.store, m).value in s.seen;
  }

  /** What careful callers send has new identifiers and keeps contents. */
  lemma HonestIsFaithful(s: State, m: Mutation, origin: Origin)
    requires Known(s) && Honest(s, m, origin)
    ensures Minted(s.store, m) && Faithful(s.store, m)
  {
    hide Inv, Exact, Edited;
    match m.kind
    case Create =>
      if m.candidate.Some? && m.candidate.value.uid in s.store.uidIndex {
        IndexedIsSeen(s, m.candidate.value.uid);
      }
    case Test =>
      if m.test.Some? && Target(s.store, m).Ok? && Captures(m.test.value, Target(s.store, m).value) {
        SameGeneration(s, m, origin.snapshot);
      }
    case _ =>
      if m.candidate.Some? && Target(s.store, m).Ok? && Succeeds(m.candidate.value, Target(s.store, m).value) {
        EditsKeep(origin.snapshot, origin.edit);
        SnapshotIsCurrent(s, m, origin.snapshot);
      }
  }

  lemma IndexedIsSeen(s: State, uid: string)
    requires Known(s) && uid in s.store.uidIndex
    ensures exists c :: c in s.seen && c.uid == uid
  {
    hide Quotas, Sound, Present, Numbered, Exact, SeenIsRecorded, VersionsIdentify;
    assert s.store.connections[s.store.uidIndex[uid]] in s.seen;
  }

  /** A generation that was read is the one recorded under its number. */
  lemma SameGeneration(s: State, m: Mutation, snapshot: Connection)
    requires Known(s) && Target(s.store, m).Ok? && snapshot in s.seen
    requires snapshot.uid == Target(s.store, m).value.uid
    requires snapshot.current.number == Target(s.store, m).value.current.number
    ensures snapshot.current == Target(s.store, m).value.current
  {
    TargetIsStored(s.store, m, s.clock);
    hide Inv, Contiguous;
    assert s.store.connections[ResourceKey(m.tenantId, m.name)] == Target(s.store, m).value;
  }

  // ----- every event keeps what was read

  /** Storing a connection newer than all that was read of its UID, or one read before. */
  lemma PlacingKeepsSeen(
    seen: set<Connection>, connections: map<string, Connection>, generations: Generations, key: string,
        c: Connection, recorded: map<int, Generation>)
    requires VersionsIdentify(seen) && StoredIsSeen(connections, seen) && SeenIsRecorded(seen, connections, generations)
    requires forall d :: d in seen && d.uid == c.uid ==>
      (d == c || d.version < c.version) && d.current.number in recorded && recorded[d.current.number] == d.current
    requires c.current.number in recorded && recorded[c.current.number] == c.current
    ensures VersionsIdentify(seen + {c}) && StoredIsSeen(connections[key := c], seen + {c})
    requires forall other :: other in connections && connections[other].uid == c.uid ==> other == key
    ensures SeenIsRecorded(seen + {c}, connections[key := c], generations[c.uid := recorded])
  {
  }

  lemma CreateKeepsSeen(s: State, m: Mutation)
    requires Known(s) && m.kind.Create? && Honest(s, m, FromNew) && CreateIn(s.store, m).Ok?
    ensures var r := CreateIn(s.store, m).value;
      Seen(State(s.callers, r.store, s.clock, s.seen + Shown(Ok(r.result))))
  {
    hide Inv, VersionsIdentify, SeenIsRecorded, Connection.Valid, ResourceKey;
    var c := m.candidate.value;
    assert forall d :: d in s.seen ==> d.uid != c.uid;
    assert forall key :: key in s.store.connections ==> s.store.connections[key].uid != c.uid;
    hide StoredIsSeen;
    PlacingKeepsSeen(s.seen, s.store.connections, s.store.generations, ResourceKey(m.tenantId, m.name), c,
        map[c.current.number := c.current]);
  }

  /** The generations recorded after an update. */
  lemma UpdateRecords(s: Store, m: Mutation, clock: int)
    requires Inv(s, clock) && Exact(s) && UpdateIn(s, m).Ok?
    requires KeepsContent(m.candidate.value, Target(s, m).value)
    ensures var c := m.candidate.value;
      && c.uid in s.generations
      && UpdateIn(s, m).value.store.generations ==
           s.generations[c.uid := s.generations[c.uid][c.current.number := c.current]]
      && (forall n :: n in s.generations[c.uid] ==>
            s.generations[c.uid][c.current.number := c.current][n] == s.generations[c.uid][n])
  {
    hide Inv, Exact, Connection.Valid, ResourceKey;
    TargetIsStored(s, m, clock);
    var c, current := m.candidate.value, Target(s, m).value;
    var recorded := s.generations[c.uid];
    if c.current.number == current.current.number {
      assert recorded[c.current.number := c.current] == recorded;
      assert s.generations[c.uid := recorded] == s.generations;
    }
  }

  lemma UpdateKeepsSeen(s: State, m: Mutation, origin: Origin)
    requires Known(s) && Honest(s, m, origin) && UpdateIn(s.store, m).Ok?
    requires !m.kind.Create? && !m.kind.Test?
    ensures var r := UpdateIn(s.store, m).value;
      Seen(State(s.callers, r.store, s.clock, s.seen + Shown(Ok(r.result))))
  {
    hide Inv, VersionsIdentify, StoredIsSeen, Connection.Valid, ResourceKey, Edited;
    var c, current := m.candidate.value, Target(s.store, m).value;
    var key := ResourceKey(m.tenantId, m.name);
    EditsKeep(origin.snapshot, origin.edit);
    SnapshotIsCurrent(s, m, origin.snapshot);
    assert KeepsContent(c, current);
    UpdateRecords(s.store, m, s.clock);
    OneKeyPerUid(s.store, m, s.clock);
    var recorded := s.store.generations[c.uid][c.current.number := c.current];
    SeenBeforeUpdate(s, key, c, recorded);
    hide SeenIsRecorded;
    PlacingKeepsSeen(s.seen, s.store.connections, s.store.generations, key, c, recorded);
  }

  lemma SeenBeforeUpdate(s: State, key: string, c: Connection, recorded: map<int, Generation>)
    requires Seen(s) && key in s.store.connections && s.store.connections[key].uid == c.uid
    requires c.uid in s.store.generations
    requires c == s.store.connections[key] || c.version == s.store.connections[key].version + 1
    requires forall n :: n in s.store.generations[c.uid] ==>
      n in recorded && recorded[n] == s.store.generations[c.uid][n]
    ensures forall d :: d in s.seen && d.uid == c.uid ==>
      (d == c || d.version < c.version) && d.current.number in recorded && recorded[d.current.number] == d.current
  {
    forall d | d in s.seen && d.uid == c.uid
      ensures (d == c || d.version < c.version) && d.current.number in recorded
      ensures recorded[d.current.number] == d.current
    {
      assert s.store.connections[key] in s.seen;
    }
  }

  lemma OneKeyPerUid(s: Store, m: Mutation, clock: int)
    requires Inv(s, clock) && Target(s, m).Ok?
    ensures forall key :: key in s.connections && s.connections[key].uid == Target(s, m).value.uid ==>
      key == ResourceKey(m.tenantId, m.name)
  {
    hide Quotas, Sound, Present, Numbered, Connection.Valid;
    TargetIsStored(s, m, clock);
  }

  lemma DeleteKeepsSeen(s: State, m: Mutation)
    requires Known(s) && DeleteIn(s.store, m).Ok?
    ensures var r := DeleteIn(s.store, m).value;
      Seen(State(s.callers, r.store, s.clock, s.seen + Shown(Ok(r.result))))
  {
    hide Inv, VersionsIdentify, StoredIsSeen, SeenIsRecorded, HasActiveTest, ResourceKey;
    OneKeyPerUid(s.store, m, s.clock);
    RemovingKeepsSeen(s.seen, s.store.connections, s.store.generations, ResourceKey(m.tenantId, m.name),
        Target(s.store, m).value.uid);
    assert s.seen + {} == s.seen;
  }

  lemma RemovingKeepsSeen(
      seen: set<Connection>, connections: map<string, Connection>, generations: Generations, key: string, uid: string)
    requires StoredIsSeen(connections, seen) && SeenIsRecorded(seen, connections, generations)
    requires forall other :: other in connections && connections[other].uid == uid ==> other == key
    ensures StoredIsSeen(connections - {key}, seen) && SeenIsRecorded(seen, connections - {key}, generations - {uid})
  {
  }

  lemma TestKeepsSeen(s: State, m: Mutation)
    requires Seen(s) && TestIn(s.store, m).Ok?
    ensures var r := TestIn(s.store, m).value;
      Seen(State(s.callers, r.store, s.clock, s.seen + Shown(Ok(r.result))))
  {
    hide VersionsIdentify, SeenIsRecorded, StoredIsSeen, TestOperation.Valid, LimitExceeded;
    assert s.seen + {} == s.seen;
  }

  lemma MutationKeepsGood(s: State, m: Mutation, origin: Origin)
    requires Good(s)
    ensures Good(AfterMutation(s, m, origin))
  {
    hide Inv, Exact, Minted, Faithful, Seen, Honest, CreateIn, UpdateIn, DeleteIn, TestIn, Identity.Valid;
    if TakesEffect(s.store, m) && Allowed(s, m, origin) {
      ApplyKeepsInv(s.store, m, s.clock);
      if s.callers.Careful? {
        HonestIsFaithful(s, m, origin);
        EffectKeepsSeen(s, m, origin);
        SeenReadsThree(s, m, origin);
      }
    }
  }

  lemma EffectKeepsSeen(s: State, m: Mutation, origin: Origin)
    requires Known(s) && MutateIn(s.store, m).Ok? && Honest(s, m, origin)
    ensures var r := MutateIn(s.store, m).value;
      Seen(State(s.callers, r.store, s.clock, s.seen + Shown(Ok(r.result))))
  {
    hide Inv, Exact, Seen, CreateIn, UpdateIn, DeleteIn, TestIn;
    match m.kind {
      case Create => CreateKeepsSeen(s, m);
      case Test => TestKeepsSeen(s, m);
      case Delete => DeleteKeepsSeen(s, m);
      case _ => UpdateKeepsSeen(s, m, origin);
    }
  }

  lemma SeenReadsThree(s: State, m: Mutation, origin: Origin)
    requires TakesEffect(s.store, m) && Allowed(s, m, origin)
    requires var r := MutateIn(s.store, m).value; Seen(State(s.callers, r.store, s.clock, s.seen + Shown(Ok(r.result))))
    ensures Seen(AfterMutation(s, m, origin))
  {
    hide Allowed, VersionsIdentify, SeenIsRecorded, StoredIsSeen, MutateIn, Identity.Valid;
  }

  lemma SameConnectionsKeepSeen(s: State, t: State)
    requires Seen(s) && t.seen == s.seen && t.store.connections == s.store.connections
    requires t.store.generations == s.store.generations
    ensures Seen(t)
  {
  }

  /** Expiry and claiming leave connections and generations alone. */
  lemma PassKeepsBase(s: Store, order: seq<string>, now: int)
    requires IsWalk(s.tests, order)
    ensures SameBase(s, ExpireEach(s, order, now))
  {
    hide ExpireEach, Passed;
    WalkExpires(s, order, now);
  }

  predicate SameConnections(s: Store, t: Store) {
    && t.idempotency == s.idempotency && t.connections == s.connections && t.uidIndex == s.uidIndex
    && t.generations == s.generations
  }

  lemma BatchKeepsBase(s: Store, order: seq<string>, b: Batch, r: ClaimRequest)
    requires IsWalk(s.tests, order) && IsBatch(ExpireEach(s, order, r.now), r, b.ids)
    requires b.claimed <= |b.ids| && SetOf(b.ids[..b.claimed]) <= s.tests.Keys
    ensures SameConnections(s, AfterClaim(s, order, b.ids, r, b.claimed, b.ok))
  {
    PassKeepsBase(s, order, r.now);
    hide ExpireEach;
    BatchIsDistinct(ExpireEach(s, order, r.now), r, b.ids);
    hide IsBatch;
    ClaimsEach(ExpireEach(s, order, r.now), SetOf(b.ids[..b.claimed]), b.ids[..b.claimed], r);
  }

  lemma CompletionKeepsBase(s: Store, op: string, executorId: string, c: Completion, now: int)
    ensures match CompleteIn(s, op, executorId, c, now)
            case Ok(t) => SameConnections(s, t)
            case Err(_) => true
  {
    hide Completion.Valid, TestOperation.Valid;
  }

  lemma BatchKeepsGood(s: State, r: ClaimRequest, order: seq<string>, b: Batch)
    requires Good(s)
    ensures Good(AfterBatch(s, r, order, b))
  {
    hide Inv, Exact, Seen, ExpireEach, ClaimEach, IsBatch, ClaimRequest.Valid;
    if Enabled(s, r, order, b) {
      ClockKeepsInv(s.store, s.clock, r.now);
      ClaimKeepsInv(s.store, order, b.ids, r, b.claimed, b.ok);
      hide AfterClaim;
      if s.callers.Careful? {
        BatchKeepsBase(s.store, order, b, r);
        SameConnectionsKeepSeen(s, AfterBatch(s, r, order, b));
      }
    }
  }

  lemma CompletionKeepsGood(s: State, op: string, executorId: string, c: Completion, now: int)
    requires Good(s)
    ensures Good(AfterCompletion(s, op, executorId, c, now))
  {
    hide Inv, Exact, Seen, Completion.Valid, TestOperation.Valid;
    var t := AfterCompletion(s, op, executorId, c, now);
    if now >= s.clock && CompleteIn(s.store, op, executorId, c, now).Ok? {
      ClockKeepsInv(s.store, s.clock, now);
      CompletionKeepsInv(s.store, op, executorId, c, now);
      if s.callers.Careful? {
        SameConnectionsKeepSeen(s, t);
      }
    }
  }

  lemma ExpiryKeepsGood(s: State, now: int, order: seq<string>)
    requires Good(s)
    ensures Good(AfterExpiry(s, now, order))
  {
    hide Inv, Exact, Seen, ExpireEach;
    var t := AfterExpiry(s, now, order);
    if now >= s.clock && IsWalk(s.store.tests, order) {
      ClockKeepsInv(s.store, s.clock, now);
      PassKeepsInv(s.store, order, now);
      PassKeepsBase(s.store, order, now);
      if s.callers.Careful? {
        SameConnectionsKeepSeen(s, t);
      }
    }
  }

  lemma NextKeepsGood(s: State, e: Event)
    requires Good(s)
    ensures Good(Next(s, e)) && Next(s, e).callers == s.callers
  {
    CallersStay(s, e);
    hide Inv, Exact, Seen, AfterMutation, AfterBatch, AfterCompletion, AfterExpiry;
    match e {
      case Mutate(m, origin) => MutationKeepsGood(s, m, origin);
      case ClaimBatch(r, order, b) => BatchKeepsGood(s, r, order, b);
      case CompleteOne(op, executorId, c, now) => CompletionKeepsGood(s, op, executorId, c, now);
      case Pass(now, order) => ExpiryKeepsGood(s, now, order);
      case SetReferences(uid, counts) =>
        InvReadsFive(s.store, Next(s, e).store, s.clock);
        if s.callers.Careful? {
          SameConnectionsKeepSeen(s, Next(s, e));
        }
    }
  }

  lemma CallersStay(s: State, e: Event)
    ensures Next(s, e).callers == s.callers
  {
    hide TakesEffect, Allowed, Enabled, AfterClaim, CompleteIn, IsWalk, AfterPass;
  }

  lemma {:induction false} RunKeepsGood(s: State, events: seq<Event>)
    requires Good(s)
    ensures Good(Run(s, events)) && Run(s, events).callers == s.callers
    decreases |events|
  {
    hide Good, Next;
    if events != [] {
      NextKeepsGood(s, events[0]);
      RunKeepsGood(Next(s, events[0]), events[1..]);
    }
  }

  lemma InitIsGood(callers: Callers)
    ensures Good(Init(callers))
  {
    forall which: Selector
      ensures Selected(EMPTY.tests, which) == {}
    {
    }
  }

  // ----- what holds in every reachable state

  /**
   The admission limits hold: at most 8 active tests of a tenant, 2 of one of its actors, 1 on one of its
   connections, and in every closed 24-hour window at most 100, whoever the callers are and in whatever
   order the tests arrived.
   */
  lemma LimitsHold(
      callers: Callers, events: seq<Event>, tenantId: string, actorId: string, connectionUid: string, start: int)
    ensures var tests := Run(Init(callers), events).store.tests;
      && |ActiveTests(tests, tenantId)| <= 8
      && |set op | op in ActiveTests(tests, tenantId) && tests[op].actorId == actorId| <= 2
      && |set op | op in ActiveTests(tests, tenantId) && tests[op].connectionUid == connectionUid| <= 1
      && |set op | op in tests && tests[op].tenantId == tenantId
                   && start <= tests[op].createdAt <= start + 86_400_000_000_000| <= 100
  {
    InitIsGood(callers);
    RunKeepsGood(Init(callers), events);
    hide Run, Indexed, Numbered, Present, Exact, Sound, Seen, Quotas, ActiveTests;
    var tests := Run(Init(callers), events).store.tests;
    TenantLimit(tests, tenantId);
    ActorLimit(tests, tenantId, actorId);
    ConnectionLimit(tests, tenantId, connectionUid);
    DailyLimit(tests, tenantId, start);
  }

  lemma TenantLimit(tests: Tests, tenantId: string)
    requires Quotas(tests)
    ensures |ActiveTests(tests, tenantId)| <= 8
  {
    assert |Selected(tests, OfTenant(tenantId))| <= OfTenant(tenantId).Limit().value;
    assert Selected(tests, OfTenant(tenantId)) == ActiveTests(tests, tenantId);
  }

  lemma ActorLimit(tests: Tests, tenantId: string, actorId: string)
    requires Quotas(tests)
    ensures |set op | op in ActiveTests(tests, tenantId) && tests[op].actorId == actorId| <= 2
  {
    var which := OfActor(tenantId, actorId);
    assert |Selected(tests, which)| <= which.Limit().value;
    assert Selected(tests, which) == set op | op in ActiveTests(tests, tenantId) && tests[op].actorId == actorId;
  }

  lemma ConnectionLimit(tests: Tests, tenantId: string, connectionUid: string)
    requires Quotas(tests)
    ensures |set op | op in ActiveTests(tests, tenantId) && tests[op].connectionUid == connectionUid| <= 1
  {
    var which := OfConnection(tenantId, connectionUid);
    assert |Selected(tests, which)| <= which.Limit().value;
    assert Selected(tests, which) ==
      set op | op in ActiveTests(tests, tenantId) && tests[op].connectionUid == connectionUid;
  }

  lemma DailyLimit(tests: Tests, tenantId: string, start: int)
    requires Quotas(tests)
    ensures |set op | op in tests && tests[op].tenantId == tenantId
                      && start <= tests[op].createdAt <= start + 86_400_000_000_000| <= 100
  {
    var which := Within(tenantId, start);
    assert |Selected(tests, which)| <= which.Limit().value;
    assert Selected(tests, which) ==
      set op | op in tests && tests[op].tenantId == tenantId
               && start <= tests[op].createdAt <= start + 86_400_000_000_000;
  }

  /**
   The maps agree, and what a claim needs is there for every active test, whoever the callers are; the
   contents recorded for a generation are the ones stored and tested, if the callers are careful.
   */
  lemma MapsAgree(callers: Callers, events: seq<Event>)
    ensures var s := Run(Init(callers), events).store;
      && Indexed(s.connections, s.uidIndex) && NoOrphans(s.uidIndex, s.generations)
      && Numbered(s.connections, s.generations)
      && (forall op :: op in s.claims <==> op in s.tests && s.tests[op].state.Running?)
      && (forall op :: op in s.tests ==> s.tests[op].Valid())
      && (forall op :: op in s.tests && (s.tests[op].state == Queued || s.tests[op].state == Running) ==>
            Leads(s, s.tests[op].connectionUid, s.tests[op].generation))
      && (callers.Careful? ==> Recorded(s.connections, s.generations) && Captured(s.tests, s.generations))
  {
    InitIsGood(callers);
    RunKeepsGood(Init(callers), events);
    hide Run, Quotas, Seen, TestOperation.Valid, Available, Indexed, Numbered, Recorded, Captured;
    var t := Run(Init(callers), events);
    forall op | op in t.store.tests && t.store.tests[op].IsActive()
      ensures Leads(t.store, t.store.tests[op].connectionUid, t.store.tests[op].generation)
    {
      ActiveIsAvailable(t.store, op, t.clock);
      AvailableLeads(t.store, t.store.tests[op]);
    }
  }

  /** The connection is stored, and the generation is recorded for it. */
  predicate Leads(s: Store, uid: string, generation: int) {
    && uid in s.uidIndex && s.uidIndex[uid] in s.connections && s.connections[s.uidIndex[uid]].uid == uid
    && uid in s.generations && generation in s.generations[uid] && s.generations[uid][generation].number == generation
  }

  lemma AvailableLeads(s: Store, t: TestOperation)
    requires Available(s, t) && Indexed(s.connections, s.uidIndex) && Numbered(s.connections, s.generations)
    ensures Leads(s, t.connectionUid, t.generation)
  {
    hide Connection.Valid;
    assert NumberedFor(s.connections[s.uidIndex[t.connectionUid]], s.generations);
  }

  /** A test's times are in order, and it has a start, an end and a result exactly as its state says. */
  predicate WellFormedTest(t: TestOperation) {
    && t.generation > 0 && t.createdAt < t.deadlineAt < t.expiresAt
    && (t.state == Queued <==> t.startedAt == None)
    && (t.state == Queued || t.state == Running <==> t.completedAt == None)
    && (t.startedAt.Some? && t.completedAt.Some? ==> t.startedAt.value <= t.completedAt.value)
    && (t.success <==> t.state == Succeeded) && (t.success <==> t.resultCode == CodeOk)
    && (t.success ==> t.phase == Complete && t.remediationKey == "")
    && (t.state == Queued || t.state == Running || t.state == Expired <==> t.resultCode == NoCode)
    && (t.state == TimedOut ==> t.resultCode == DeadlineExceeded)
    && (t.state == Queued || t.state == Expired <==> t.phase == NoPhase)
    && (t.state == Running ==> t.phase != Complete)
  }

  predicate WellFormedConnection(c: Connection) {
    && c.version > 0 && c.current.number > 0 && c.name != "" && '\0' !in c.name
    && c.createdAt <= c.current.createdAt <= c.updatedAt
    && (c.current.locator.provider == "" || c.current.locator.provider == "KUBERNETES_SECRET_V1")
  }

  /** In every reachable state, whoever the callers are. */
  lemma StoredIsWellFormed(callers: Callers, events: seq<Event>)
    ensures var s := Run(Init(callers), events).store;
      && (forall op :: op in s.tests ==> s.tests[op].operationId == op && WellFormedTest(s.tests[op]))
      && (forall op :: op in s.claims ==> s.claims[op].attempt > 0)
      && (forall key :: key in s.connections ==>
            WellFormedConnection(s.connections[key])
            && key == s.connections[key].tenantId + "\0" + s.connections[key].name)
  {
    InitIsGood(callers);
    RunKeepsGood(Init(callers), events);
    hide Run, Quotas, Seen, Exact, Numbered, Present, TestOperation.Valid, WellFormedTest, WellFormedConnection,
        Connection.Valid;
    var s := Run(Init(callers), events).store;
    forall op | op in s.tests
      ensures s.tests[op].operationId == op && WellFormedTest(s.tests[op])
    {
      assert SoundTest(op, s.tests[op], Run(Init(callers), events).clock);
      ValidTest(s.tests[op]);
    }
    forall key | key in s.connections
      ensures WellFormedConnection(s.connections[key])
    {
      ValidConnection(s.connections[key]);
    }
  }

  lemma ValidTest(t: TestOperation)
    requires t.Valid()
    ensures WellFormedTest(t)
  {
  }

  lemma ValidConnection(c: Connection)
    requires c.Valid()
    ensures WellFormedConnection(c)
  {
  }

  // ----- idempotency

  /** A mutation that is refused or replayed: it leaves the store, the log and the revision alone. */
  predicate Idle(s: State, e: Event) { e.Mutate? && !TakesEffect(s.store, e.m) }

  /** A refusal or a replay, of any mutation whatever, changes nothing. */
  lemma IdleChangesNothing(s: State, e: Event)
    requires Idle(s, e)
    ensures Next(s, e) == s && Apply(s.store, e.m).store == s.store
  {
    hide MutateIn, Identity.Valid;
  }

  /** The run without its refused and replayed mutations. */
  ghost function Effective(s: State, events: seq<Event>): seq<Event>
    decreases |events|
  {
    if events == [] then []
    else if Idle(s, events[0]) then Effective(s, events[1..])
    else [events[0]] + Effective(Next(s, events[0]), events[1..])
  }

  /** Deleting them from any run gives the same final state. */
  lemma {:induction false} EffectiveRunIsEnough(s: State, events: seq<Event>)
    ensures Run(s, Effective(s, events)) == Run(s, events)
    decreases |events|
  {
    hide Next, Idle;
    if events != [] {
      if Idle(s, events[0]) {
        IdleChangesNothing(s, events[0]);
        EffectiveRunIsEnough(s, events[1..]);
      } else {
        EffectiveRunIsEnough(Next(s, events[0]), events[1..]);
        assert Effective(s, events)[1..] == Effective(Next(s, events[0]), events[1..]);
      }
    }
  }

  lemma OnlyMutationsChange(s: State, e: Event)
    requires !e.Mutate?
    ensures SameConnections(s.store, Next(s, e).store) && Next(s, e).seen == s.seen
  {
    hide ExpireEach, AfterClaim, IsBatch, ClaimRequest.Valid, Passed, CompleteIn;
    match e {
      case ClaimBatch(r, order, b) =>
        if Enabled(s, r, order, b) {
          BatchKeepsBase(s.store, order, b, r);
        }
      case CompleteOne(op, executorId, c, now) => CompletionKeepsBase(s.store, op, executorId, c, now);
      case Pass(now, order) =>
        if IsWalk(s.store.tests, order) {
          PassKeepsBase(s.store, order, now);
        }
      case SetReferences(uid, counts) =>
    }
  }

  lemma NextRemembers(s: State, e: Event, key: string)
    requires key in s.store.idempotency
    ensures key in Next(s, e).store.idempotency && Next(s, e).store.idempotency[key] == s.store.idempotency[key]
  {
    if e.Mutate? {
      hide Allowed, MutateIn, Identity.Valid, IdempotencyKey;
      if TakesEffect(s.store, e.m) {
        MutationsLeaveTheLog(s.store, e.m);
      }
    } else {
      hide Next;
      OnlyMutationsChange(s, e);
    }
  }

  lemma {:induction false} RunRemembers(s: State, events: seq<Event>, key: string)
    requires key in s.store.idempotency
    ensures key in Run(s, events).store.idempotency && Run(s, events).store.idempotency[key] == s.store.idempotency[key]
    decreases |events|
  {
    hide Next;
    if events != [] {
      NextRemembers(s, events[0], key);
      RunRemembers(Next(s, events[0]), events[1..], key);
    }
  }

  /**
   Once a mutation took effect, every later one with its key gets the first reply again, marked as
   replayed, or is refused for carrying another request; none takes effect.
   */
  lemma TakesEffectOnce(s: State, first: Mutation, origin: Origin, events: seq<Event>, again: Mutation)
    requires TakesEffect(s.store, first) && Allowed(s, first, origin)
    requires again.identity.Valid() && IdempotencyKey(again) == IdempotencyKey(first)
    ensures var t := Run(Next(s, Mutate(first, origin)), events);
      && !TakesEffect(t.store, again)
      && Apply(t.store, again).store == t.store
      && Apply(t.store, again).reply ==
           (if again.identity.requestDigest == first.identity.requestDigest
            then Ok(Apply(s.store, first).reply.value.(outcome := Replayed)) else Err(IdempotencyReused))
  {
    hide Allowed, MutateIn, Identity.Valid, IdempotencyKey, Run;
    RunRemembers(Next(s, Mutate(first, origin)), events, IdempotencyKey(first));
  }
}
