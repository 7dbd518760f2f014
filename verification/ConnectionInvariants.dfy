/** What every operation of the connection store keeps. */
module ConnectionInvariants {
  import opened Outcomes
  import opened Connections
  import opened ConnectionStore
  import Keyset

  // ----- the maps agree

  /** The UID index and the connections are inverse. */
  ghost predicate Indexed(connections: map<string, Connection>, uidIndex: map<string, string>) {
    && (forall key :: key in connections ==>
          connections[key].Valid() && key == ResourceKey(connections[key].tenantId, connections[key].name)
          && connections[key].uid in uidIndex && uidIndex[connections[key].uid] == key)
    && (forall uid :: uid in uidIndex ==> uidIndex[uid] in connections && connections[uidIndex[uid]].uid == uid)
  }

  /** Recorded generations are valid, numbered without holes, and end at the number given. */
  ghost predicate Contiguous(recorded: map<int, Generation>, last: int) {
    && (forall n :: n in recorded ==> n <= last && recorded[n].number == n && recorded[n].Valid())
    && (forall n, k :: n in recorded && n <= k <= last ==> k in recorded)
  }

  /** The number of each connection's current generation is the last one recorded for it. */
  ghost predicate Numbered(connections: map<string, Connection>, generations: Generations) {
    forall key :: key in connections ==> NumberedFor(connections[key], generations)
  }

  ghost predicate NumberedFor(c: Connection, generations: Generations) {
    c.uid in generations && c.current.number in generations[c.uid] && Contiguous(generations[c.uid], c.current.number)
  }

  /** Only stored connections have generations. */
  ghost predicate NoOrphans(uidIndex: map<string, string>, generations: Generations) {
    uidIndex.Keys == generations.Keys
  }

  /** An active test's connection and the generation it captured are there. */
  ghost predicate Present(tests: Tests, generations: Generations) {
    forall op :: op in tests && tests[op].IsActive() ==> PresentFor(tests[op], generations)
  }

  predicate PresentFor(t: TestOperation, generations: Generations) {
    t.connectionUid in generations && t.generation in generations[t.connectionUid]
  }

  /** Stored tests are valid, and claims are held for exactly the running ones. */
  ghost predicate Sound(tests: Tests, claims: Claims, clock: int) {
    && (forall op :: op in tests ==> SoundTest(op, tests[op], clock))
    && (forall op :: op in claims <==> op in tests && tests[op].state.Running?)
    && (forall op :: op in claims ==> claims[op].attempt > 0 && IsExecutor(claims[op].executorId))
  }

  /** Running tests started no later than now. */
  predicate SoundTest(op: string, t: TestOperation, clock: int) {
    t.operationId == op && t.Valid() && (t.state.Running? ==> t.startedAt.value <= clock)
  }

  ghost predicate Quotas(tests: Tests) {
    forall which: Selector :: which.Limit().Some? ==> |Selected(tests, which)| <= which.Limit().value
  }

  ghost predicate Inv(s: Store, clock: int) {
    && Indexed(s.connections, s.uidIndex) && Numbered(s.connections, s.generations)
    && NoOrphans(s.uidIndex, s.generations) && Present(s.tests, s.generations)
    && Sound(s.tests, s.claims, clock) && Quotas(s.tests)
  }

  /** What the service mints: new UIDs, new operation IDs, queued tests. Candidates of updates are arbitrary. */
  ghost predicate Minted(s: Store, m: Mutation) {
    match m.kind
    case Create => m.candidate.Some? ==> m.candidate.value.uid !in s.uidIndex
    case Test => m.test.Some? ==> m.test.value.state.Queued? && m.test.value.operationId !in s.tests
    case _ => true
  }

  // ----- contents agree, for callers who edit what is stored

  /** Each connection's current generation is the one recorded under its number. */
  ghost predicate Recorded(connections: map<string, Connection>, generations: Generations) {
    forall key :: key in connections ==> RecordedFor(connections[key], generations)
  }

  predicate RecordedFor(c: Connection, generations: Generations) {
    && c.uid in generations && c.current.number in generations[c.uid]
    && generations[c.uid][c.current.number] == c.current
  }

  /** An active test carries the descriptor revision of the generation it captured. */
  ghost predicate Captured(tests: Tests, generations: Generations) {
    forall op :: op in tests && tests[op].IsActive() ==> CapturedFor(tests[op], generations)
  }

  predicate CapturedFor(t: TestOperation, generations: Generations) {
    PresentFor(t, generations) && generations[t.connectionUid][t.generation].descriptorRevision == t.descriptorRevision
  }

  ghost predicate Exact(s: Store) {
    Recorded(s.connections, s.generations) && Captured(s.tests, s.generations)
  }

  /** Tests carry the descriptor revision of what they capture; no new content under an old generation number. */
  ghost predicate Faithful(s: Store, m: Mutation) {
    match m.kind
    case Create => true
    case Test => m.test.Some? && Target(s, m).Ok? && Captures(m.test.value, Target(s, m).value) ==>
      m.test.value.descriptorRevision == Target(s, m).value.current.descriptorRevision
    case _ => m.candidate.Some? && Target(s, m).Ok? ==> KeepsContent(m.candidate.value, Target(s, m).value)
  }

  predicate Captures(t: TestOperation, c: Connection) { t.connectionUid == c.uid && t.generation == c.current.number }

  /** An accepted successor with the same generation number has the same generation. */
  predicate KeepsContent(c: Connection, current: Connection) {
    Succeeds(c, current) && c.current.number == current.current.number ==> c.current == current.current
  }

  // ----- quotas

  /** A test that went on with its life: same identity, never active again once it ended. */
  predicate LivesOn(t: TestOperation, u: TestOperation) {
    && u.tenantId == t.tenantId && u.operationId == t.operationId && u.connectionUid == t.connectionUid
    && u.generation == t.generation && u.descriptorRevision == t.descriptorRevision && u.actorId == t.actorId
    && u.createdAt == t.createdAt && u.deadlineAt == t.deadlineAt && u.expiresAt == t.expiresAt
    && (u.IsActive() ==> t.IsActive())
  }

  ghost predicate AllLiveOn(tests: Tests, after: Tests) {
    after.Keys == tests.Keys && forall op :: op in tests ==> LivesOn(tests[op], after[op])
  }

  lemma LivingOnKeepsQuotas(tests: Tests, after: Tests)
    requires Quotas(tests) && AllLiveOn(tests, after)
    ensures Quotas(after)
  {
    forall which: Selector | which.Limit().Some?
      ensures |Selected(after, which)| <= which.Limit().value
    {
      assert Selected(after, which) <= Selected(tests, which);
      Keyset.SmallerSet(Selected(after, which), Selected(tests, which));
      assert |Selected(tests, which)| <= which.Limit().value;
    }
  }

  lemma LivingOnKeepsPresent(tests: Tests, after: Tests, generations: Generations)
    requires AllLiveOn(tests, after)
    ensures Present(tests, generations) ==> Present(after, generations)
    ensures Captured(tests, generations) ==> Captured(after, generations)
  {
  }

  /** Admission within the limits keeps every limit, whatever the order of creation times. */
  lemma AdmissionKeepsQuotas(tests: Tests, t: TestOperation)
    requires Quotas(tests) && !LimitExceeded(tests, t) && t.IsActive()
    ensures Quotas(tests[t.operationId := t])
  {
    var after := tests[t.operationId := t];
    forall which: Selector | which.Limit().Some?
      ensures |Selected(after, which)| <= which.Limit().value
    {
      assert |Selected(tests, which)| <= which.Limit().value;
      if !which.Selects(t) {
        Keyset.SmallerSet(Selected(after, which), Selected(tests, which));
      } else {
        assert Selected(after, which) <= Selected(tests, which) + {t.operationId};
        Keyset.SmallerSet(Selected(after, which), Selected(tests, which) + {t.operationId});
        if which.Within? {
          var recent := Since(t.tenantId, t.createdAt - DAY);
          assert Selected(tests, which) <= Selected(tests, recent);
          Keyset.SmallerSet(Selected(tests, which), Selected(tests, recent));
        }
      }
    }
  }

  // ----- mutations

  /** A connection stored under its key, in place of itself or as a new one. */
  predicate Placeable(connections: map<string, Connection>, uidIndex: map<string, string>, c: Connection) {
    var key := ResourceKey(c.tenantId, c.name);
    c.Valid() && if key in connections then connections[key].uid == c.uid else c.uid !in uidIndex
  }

  lemma PlacingKeepsIndexed(connections: map<string, Connection>, uidIndex: map<string, string>, c: Connection)
    requires Indexed(connections, uidIndex) && Placeable(connections, uidIndex, c)
    ensures var key := ResourceKey(c.tenantId, c.name); Indexed(connections[key := c], uidIndex[c.uid := key])
  {
    hide Connection.Valid, ResourceKey;
  }

  lemma PlacingKeepsNumbered(connections: map<string, Connection>, uidIndex: map<string, string>,
                             generations: Generations, c: Connection, recorded: map<int, Generation>)
    requires Indexed(connections, uidIndex) && Numbered(connections, generations) && Placeable(connections, uidIndex, c)
    requires NumberedFor(c, generations[c.uid := recorded])
    ensures Numbered(connections[ResourceKey(c.tenantId, c.name) := c], generations[c.uid := recorded])
  {
    hide Contiguous, Connection.Valid;
    var key := ResourceKey(c.tenantId, c.name);
    hide ResourceKey;
    forall other | other in connections && other != key
      ensures NumberedFor(connections[other], generations[c.uid := recorded])
    {
      assert uidIndex[connections[other].uid] == other;
      assert NumberedFor(connections[other], generations);
    }
  }

  lemma PlacingKeepsRecorded(connections: map<string, Connection>, uidIndex: map<string, string>,
                             generations: Generations, c: Connection, recorded: map<int, Generation>)
    requires Indexed(connections, uidIndex) && Recorded(connections, generations) && Placeable(connections, uidIndex, c)
    requires c.current.number in recorded
    ensures Recorded(connections[ResourceKey(c.tenantId, c.name) := c], generations[c.uid := recorded]) <==>
            recorded[c.current.number] == c.current
  {
    hide Connection.Valid;
    var key, after := ResourceKey(c.tenantId, c.name), generations[c.uid := recorded];
    hide ResourceKey;
    forall other | other in connections && other != key
      ensures RecordedFor(connections[other], after)
    {
      assert uidIndex[connections[other].uid] == other;
      assert RecordedFor(connections[other], generations);
    }
    var placed := connections[key := c];
    assert placed[key] == c;
    if recorded[c.current.number] != c.current {
      assert !RecordedFor(placed[key], after);
    }
  }

  /** What was recorded may only be added to. */
  ghost predicate Adds(generations: Generations, uid: string, recorded: map<int, Generation>) {
    uid in generations ==> forall n :: n in generations[uid] ==> n in recorded && recorded[n] == generations[uid][n]
  }

  lemma GrowingKeepsPresent(tests: Tests, generations: Generations, uid: string, recorded: map<int, Generation>)
    requires Adds(generations, uid, recorded)
    ensures Present(tests, generations) ==> Present(tests, generations[uid := recorded])
    ensures Captured(tests, generations) ==> Captured(tests, generations[uid := recorded])
  {
  }

  lemma FirstGeneration(c: Connection)
    requires c.Valid()
    ensures Contiguous(map[c.current.number := c.current], c.current.number)
  {
  }

  lemma NextGeneration(recorded: map<int, Generation>, last: int, g: Generation)
    requires Contiguous(recorded, last) && last in recorded && g.Valid() && g.number == last + 1
    ensures Contiguous(recorded[g.number := g], g.number) && g.number !in recorded
  {
    hide Generation.Valid;
  }

  /** The store with a connection and what is recorded for it. */
  function Placed(s: Store, c: Connection, recorded: map<int, Generation>): Store {
    var key := ResourceKey(c.tenantId, c.name);
    s.(connections := s.connections[key := c], uidIndex := s.uidIndex[c.uid := key],
       generations := s.generations[c.uid := recorded])
  }

  lemma PlacingKeepsInv(s: Store, c: Connection, recorded: map<int, Generation>, clock: int)
    requires Inv(s, clock) && Placeable(s.connections, s.uidIndex, c)
    requires c.current.number in recorded && Contiguous(recorded, c.current.number)
    requires Adds(s.generations, c.uid, recorded)
    ensures Inv(Placed(s, c, recorded), clock)
    ensures Exact(s) ==> (Exact(Placed(s, c, recorded)) <==> recorded[c.current.number] == c.current)
  {
    hide Quotas, Sound, Contiguous, Connection.Valid, ResourceKey, Indexed, Numbered, Recorded, Present, Captured, Adds;
    PlacingKeepsIndexed(s.connections, s.uidIndex, c);
    PlacingKeepsNumbered(s.connections, s.uidIndex, s.generations, c, recorded);
    GrowingKeepsPresent(s.tests, s.generations, c.uid, recorded);
    if Exact(s) {
      PlacingKeepsRecorded(s.connections, s.uidIndex, s.generations, c, recorded);
    }
  }

  lemma CreateKeepsInv(s: Store, m: Mutation, clock: int)
    requires Inv(s, clock) && m.kind.Create? && Minted(s, m) && CreateIn(s, m).Ok?
    ensures Inv(CreateIn(s, m).value.store, clock)
    ensures Exact(s) ==> Exact(CreateIn(s, m).value.store)
  {
    var c := m.candidate.value;
    assert c.uid !in s.generations;
    hide Inv, Exact, Connection.Valid;
    FirstGeneration(c);
    hide Contiguous;
    PlacingKeepsInv(s, c, map[c.current.number := c.current], clock);
  }

  /** The stored connection a mutation finds, and what is recorded for it. */
  lemma TargetIsStored(s: Store, m: Mutation, clock: int)
    requires Inv(s, clock) && Target(s, m).Ok?
    ensures var c := Target(s, m).value;
      && c.Valid() && ResourceKey(c.tenantId, c.name) == ResourceKey(m.tenantId, m.name)
      && c.uid in s.uidIndex && s.uidIndex[c.uid] == ResourceKey(m.tenantId, m.name) && NumberedFor(c, s.generations)
      && (Exact(s) ==> RecordedFor(c, s.generations))
  {
    hide Quotas, Sound, Present, Captured, Contiguous, Connection.Valid;
  }

  /**
   Every accepted update keeps the invariant. It keeps the current generation equal to the recorded one
   if and only if it brings no new content under the old generation number.
   */
  lemma UpdateKeepsInv(s: Store, m: Mutation, clock: int)
    requires Inv(s, clock) && UpdateIn(s, m).Ok?
    ensures Inv(UpdateIn(s, m).value.store, clock)
    ensures Exact(s) ==> (Exact(UpdateIn(s, m).value.store) <==> KeepsContent(m.candidate.value, Target(s, m).value))
  {
    hide Inv, Exact, Contiguous, ResourceKey, Generation.Valid;
    TargetIsStored(s, m, clock);
    var c, current := m.candidate.value, Target(s, m).value;
    var recorded := s.generations[c.uid];
    assert s.uidIndex[c.uid := s.uidIndex[c.uid]] == s.uidIndex;
    if c.current.number == current.current.number {
      assert s.generations[c.uid := recorded] == s.generations;
      PlacingKeepsInv(s, c, recorded, clock);
    } else {
      NextGeneration(recorded, current.current.number, c.current);
      PlacingKeepsInv(s, c, recorded[c.current.number := c.current], clock);
    }
  }

  lemma RemovingKeepsIndexed(connections: map<string, Connection>, uidIndex: map<string, string>, uid: string)
    requires Indexed(connections, uidIndex) && uid in uidIndex
    ensures Indexed(connections - {uidIndex[uid]}, uidIndex - {uid})
  {
    hide Connection.Valid, ResourceKey;
  }

  lemma RemovingKeepsNumbered(
    connections: map<string, Connection>, uidIndex: map<string, string>, generations: Generations, uid: string)
    requires Indexed(connections, uidIndex) && Numbered(connections, generations) && uid in uidIndex
    ensures Numbered(connections - {uidIndex[uid]}, generations - {uid})
    ensures Recorded(connections, generations) ==> Recorded(connections - {uidIndex[uid]}, generations - {uid})
  {
    hide Contiguous, Connection.Valid, ResourceKey;
    forall key | key in connections && key != uidIndex[uid]
      ensures NumberedFor(connections[key], generations - {uid})
      ensures Recorded(connections, generations) ==> RecordedFor(connections[key], generations - {uid})
    {
      assert NumberedFor(connections[key], generations);
    }
  }

  lemma RemovingKeepsPresent(tests: Tests, generations: Generations, uid: string)
    requires !HasActiveTest(tests, uid)
    ensures Present(tests, generations) ==> Present(tests, generations - {uid})
    ensures Captured(tests, generations) ==> Captured(tests, generations - {uid})
  {
  }

  lemma DeleteKeepsInv(s: Store, m: Mutation, clock: int)
    requires Inv(s, clock) && DeleteIn(s, m).Ok?
    ensures Inv(DeleteIn(s, m).value.store, clock)
    ensures Exact(s) ==> Exact(DeleteIn(s, m).value.store)
  {
    hide Indexed, Numbered, Recorded, Present, Captured, HasActiveTest, Quotas, Sound, Contiguous,
         Connection.Valid, ResourceKey;
    TargetIsStored(s, m, clock);
    var uid := Target(s, m).value.uid;
    RemovingKeepsIndexed(s.connections, s.uidIndex, uid);
    RemovingKeepsNumbered(s.connections, s.uidIndex, s.generations, uid);
    RemovingKeepsPresent(s.tests, s.generations, uid);
  }

  lemma AdmissionKeepsSound(tests: Tests, claims: Claims, clock: int, t: TestOperation)
    requires Sound(tests, claims, clock) && t.Valid() && t.state.Queued? && t.operationId !in tests
    ensures Sound(tests[t.operationId := t], claims, clock)
  {
    hide TestOperation.Valid;
  }

  lemma TestKeepsInv(s: Store, m: Mutation, clock: int)
    requires Inv(s, clock) && m.kind.Test? && Minted(s, m) && TestIn(s, m).Ok?
    ensures Inv(TestIn(s, m).value.store, clock)
    ensures Exact(s) && Faithful(s, m) ==> Exact(TestIn(s, m).value.store)
  {
    hide Indexed, Numbered, Recorded, NoOrphans, Sound, Quotas, Contiguous;
    hide LimitExceeded, Connection.Valid, TestOperation.Valid, ResourceKey;
    TargetIsStored(s, m, clock);
    var t := m.test.value;
    AdmissionKeepsQuotas(s.tests, t);
    AdmissionKeepsSound(s.tests, s.claims, clock, t);
    assert PresentFor(t, s.generations);
  }

  /** Everything but the log, the counter and the idempotency record decides the invariant. */
  lemma InvReadsFive(s: Store, r: Store, clock: int)
    requires r.connections == s.connections && r.uidIndex == s.uidIndex && r.tests == s.tests
    requires r.generations == s.generations && r.claims == s.claims
    ensures Inv(s, clock) ==> Inv(r, clock)
    ensures Exact(s) ==> Exact(r)
  {
  }

  /** Every mutation, refused, replayed or applied, keeps the invariant; faithful ones keep the contents too. */
  lemma ApplyKeepsInv(s: Store, m: Mutation, clock: int)
    requires Inv(s, clock) && Minted(s, m)
    ensures Inv(Apply(s, m).store, clock)
    ensures Exact(s) && Faithful(s, m) ==> Exact(Apply(s, m).store)
  {
    hide Inv, Exact, Minted, Identity.Valid, IdempotencyKey, CreateIn, UpdateIn, DeleteIn, TestIn;
    if TakesEffect(s, m) {
      ReplyShows(s, m);
      match m.kind {
        case Create => CreateKeepsInv(s, m, clock);
        case Test => TestKeepsInv(s, m, clock);
        case Delete => DeleteKeepsInv(s, m, clock);
        case _ => UpdateKeepsInv(s, m, clock);
      }
      InvReadsFive(MutateIn(s, m).value.store, Apply(s, m).store, clock);
    }
  }

  /** A reply shows the connection that was stored. */
  lemma ReplyShows(s: Store, m: Mutation)
    requires MutateIn(s, m).Ok?
    ensures !m.kind.Unsupported?
    ensures m.kind.Delete? || m.kind.Test? ==> MutateIn(s, m).value.result.connection.None?
    ensures !m.kind.Delete? && !m.kind.Test? ==>
      m.candidate.Some? && MutateIn(s, m).value.result.connection == m.candidate
    ensures !m.kind.Create? ==> Target(s, m).Ok?
  {
    hide LimitExceeded, HasActiveTest, Connection.Valid, TestOperation.Valid;
  }
}
