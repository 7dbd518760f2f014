/**
 Checkpoint admission: the fingerprint, the admission table
 (control-plane/replication/adapters/admission.go) and concurrent PushCheckpoint calls over it
 (control-plane/api-server/internal/replication/service.go).
 */
module Admission {
  import opened Outcomes
  import opened Bytes
  import opened WalKeys
  import Runs

  datatype Key = Key(source: ByteString, target: ByteString, jobId: ByteString, sequence: nat)
  datatype Content = Content(epoch: nat, uri: ByteString, crc: nat)

  // ----- the fingerprint

  /** SHA-256; collisions are excluded only where a statement says so. */
  const Hash: ByteString -> ByteString

  ghost predicate CollisionFree() {
    forall x: ByteString, y: ByteString :: Hash(x) == Hash(y) ==> x == y
  }

  const NUL: Byte := 0

  function KeyText(k: Key): ByteString {
    k.source + [NUL] + k.target + [NUL] + k.jobId + [NUL] + Decimal(k.sequence) + [NUL]
  }

  function ContentText(c: Content): ByteString {
    Decimal(c.epoch) + [NUL] + (c.uri + [NUL] + Decimal(c.crc))
  }

  function Fingerprint(k: Key, c: Content): ByteString {
    Hash(KeyText(k) + ContentText(c))
  }

  lemma SplitAtFirst(a: ByteString, r: ByteString, a': ByteString, r': ByteString)
    requires a + [NUL] + r == a' + [NUL] + r' && NUL !in a && NUL !in a'
    ensures a == a' && r == r'
  {
    var s := a + [NUL] + r;
    assert s[|a|] == NUL && s[|a'|] == NUL;
    assert a == s[..|a|] && r == s[|a| + 1..] && a' == s[..|a'|] && r' == s[|a'| + 1..];
  }

  lemma SplitAtLast(a: ByteString, r: ByteString, a': ByteString, r': ByteString)
    requires a + [NUL] + r == a' + [NUL] + r' && NUL !in r && NUL !in r'
    ensures a == a' && r == r'
  {
    var s := a + [NUL] + r;
    assert s[|a|] == NUL && s[|a'|] == NUL;
    assert a == s[..|a|] && r == s[|a| + 1..] && a' == s[..|a'|] && r' == s[|a'| + 1..];
  }

  lemma DecimalIsUnique(m: nat, n: nat)
    ensures Decimal(m) == Decimal(n) ==> m == n
    ensures NUL !in Decimal(n)
  {
    DecimalIsRead(m, 0);
    DecimalIsRead(n, 0);
    assert Zeros(0) + Decimal(m) == Decimal(m) && Zeros(0) + Decimal(n) == Decimal(n);
  }

  /** For one key, equal fingerprints mean equal epoch, URI and checksum, whatever bytes the URI holds. */
  lemma FingerprintIdentifiesContent(k: Key, c: Content, d: Content)
    requires CollisionFree() && Fingerprint(k, c) == Fingerprint(k, d)
    ensures c == d
  {
    hide Decimal, KeyText;
    assert ContentText(c) == (KeyText(k) + ContentText(c))[|KeyText(k)|..];
    assert ContentText(d) == (KeyText(k) + ContentText(d))[|KeyText(k)|..];
    DecimalIsUnique(c.epoch, d.epoch);
    DecimalIsUnique(d.epoch, c.epoch);
    DecimalIsUnique(c.crc, d.crc);
    DecimalIsUnique(d.crc, c.crc);
    SplitAtFirst(Decimal(c.epoch), c.uri + [NUL] + Decimal(c.crc), Decimal(d.epoch), d.uri + [NUL] + Decimal(d.crc));
    SplitAtLast(c.uri, Decimal(c.crc), d.uri, Decimal(d.crc));
  }

  /** And across keys without NUL bytes the fingerprint identifies the whole push. */
  lemma FingerprintIdentifiesPush(k: Key, c: Content, l: Key, d: Content)
    requires CollisionFree() && Fingerprint(k, c) == Fingerprint(l, d)
    requires NUL !in k.source && NUL !in k.target && NUL !in k.jobId
    requires NUL !in l.source && NUL !in l.target && NUL !in l.jobId
    ensures k == l && c == d
  {
    KeyTextInFront(k, c);
    KeyTextInFront(l, d);
    hide Decimal, KeyText, ContentText;
    var r, r' := Decimal(k.sequence) + [NUL] + ContentText(c), Decimal(l.sequence) + [NUL] + ContentText(d);
    SplitAtFirst(
      k.source, k.target + [NUL] + (k.jobId + [NUL] + r), l.source, l.target + [NUL] + (l.jobId + [NUL] + r'));
    SplitAtFirst(k.target, k.jobId + [NUL] + r, l.target, l.jobId + [NUL] + r');
    SplitAtFirst(k.jobId, r, l.jobId, r');
    DecimalIsUnique(k.sequence, l.sequence);
    DecimalIsUnique(l.sequence, k.sequence);
    SplitAtFirst(Decimal(k.sequence), ContentText(c), Decimal(l.sequence), ContentText(d));
    FingerprintIdentifiesContent(k, c, d);
  }

  lemma KeyTextInFront(k: Key, c: Content)
    ensures KeyText(k) + ContentText(c) == k.source + [NUL]
      + (k.target + [NUL] + (k.jobId + [NUL] + (Decimal(k.sequence) + [NUL] + ContentText(c))))
  {
    hide Decimal, ContentText;
  }

  // ----- the table, one function per SQL statement

  datatype Row = Row(content: Content, fingerprint: ByteString, committed: bool)
  type Rows = map<Key, Row>

  /** INSERT … ON CONFLICT DO NOTHING */
  function Inserted(rows: Rows, k: Key, c: Content): Rows {
    if k in rows then rows else rows[k := Row(c, Fingerprint(k, c), false)]
  }

  /** UPDATE … SET committed = TRUE */
  function Committed(rows: Rows, k: Key): Rows {
    if k in rows then rows[k := rows[k].(committed := true)] else rows
  }

  /** DELETE … WHERE committed = FALSE */
  function Released(rows: Rows, k: Key): Rows {
    if k in rows && !rows[k].committed then rows - {k} else rows
  }

  /** What the SELECT after a lost insert decides. */
  predicate AlreadyDelivered(rows: Rows, k: Key, c: Content) {
    k in rows && rows[k].fingerprint == Fingerprint(k, c) && rows[k].committed
  }

  // ----- concurrent pushes

  /**
   Where one PushCheckpoint call stands: before its insert, between the lost insert and the select,
   delivering, delivered, about to release, or finished one way or the other.
   */
  datatype Phase = Claiming | Looking | Delivering | Delivered | Releasing | Acknowledged | Refused

  datatype Push = Push(key: Key, content: Content, phase: Phase) {
    /** The call inserted the row and has neither given it up nor finished. */
    predicate Owns() { phase.Delivering? || phase.Delivered? || phase.Releasing? }
  }

  datatype State = State(rows: Rows, pushes: map<nat, Push>)

  /**
   One atomic step. A statement can fail with or without having taken effect; a call can die at any
   point. An event that does not apply to the call's phase does nothing.
   */
  datatype Event =
    | Begin(id: nat, key: Key, content: Content)
    | Insert(id: nat, applied: bool, reported: bool)
    | Select(id: nat, answered: bool)
    | Deliver(id: nat, accepted: bool)
    | Commit(id: nat, applied: bool, reported: bool)
    | Release(id: nat, applied: bool)
    | Die(id: nat)

  const Init := State(map[], map[])

  predicate Stands(s: State, id: nat, phase: Phase) {
    id in s.pushes && s.pushes[id].phase == phase
  }

  function Moved(s: State, id: nat, phase: Phase): State
    requires id in s.pushes
  {
    s.(pushes := s.pushes[id := s.pushes[id].(phase := phase)])
  }

  function Next(s: State, e: Event): State {
    match e
    case Begin(id, key, content) =>
      if id in s.pushes then s else s.(pushes := s.pushes[id := Push(key, content, Claiming)])
    case Insert(id, applied, reported) =>
      if !Stands(s, id, Claiming) then s else
      var p := s.pushes[id];
      var rows := if applied then Inserted(s.rows, p.key, p.content) else s.rows;
      var won := applied && p.key !in s.rows;
      Moved(s.(rows := rows), id, if !(applied && reported) then Refused else if won then Delivering else Looking)
    case Select(id, answered) =>
      if !Stands(s, id, Looking) then s else
      var p := s.pushes[id];
      Moved(s, id, if answered && AlreadyDelivered(s.rows, p.key, p.content) then Acknowledged else Refused)
    case Deliver(id, accepted) =>
      if !Stands(s, id, Delivering) then s else Moved(s, id, if accepted then Delivered else Releasing)
    case Commit(id, applied, reported) =>
      if !Stands(s, id, Delivered) then s else
      var key := s.pushes[id].key;
      var rows := if applied then Committed(s.rows, key) else s.rows;
      Moved(s.(rows := rows), id, if applied && reported && key in s.rows then Acknowledged else Releasing)
    case Release(id, applied) =>
      if !Stands(s, id, Releasing) then s else
      var rows := if applied then Released(s.rows, s.pushes[id].key) else s.rows;
      Moved(s.(rows := rows), id, Refused)
    case Die(id) =>
      if id in s.pushes && !s.pushes[id].phase.Acknowledged? then Moved(s, id, Refused) else s
  }

  function Run(s: State, events: seq<Event>): State {
    Runs.Run(Next, s, events)
  }

  /** An owner's row is its own, uncommitted until it commits it, and has no other owner. */
  ghost predicate OwnerHolds(s: State, id: nat) {
    id in s.pushes && s.pushes[id].Owns() ==>
      var p := s.pushes[id];
      && p.key in s.rows && s.rows[p.key].content == p.content
      && (s.rows[p.key].committed ==> p.phase.Releasing?)
      && forall other :: other in s.pushes && s.pushes[other].Owns() && s.pushes[other].key == p.key ==> other == id
  }

  ghost predicate AckHolds(s: State, id: nat) {
    Stands(s, id, Acknowledged) ==> AlreadyDelivered(s.rows, s.pushes[id].key, s.pushes[id].content)
  }

  ghost predicate Inv(s: State) {
    && (forall k :: k in s.rows ==> s.rows[k].fingerprint == Fingerprint(k, s.rows[k].content))
    && (forall id :: id in s.pushes ==> OwnerHolds(s, id))
    && (forall id :: id in s.pushes ==> AckHolds(s, id))
  }

  /** Rows that were committed stay exactly as they were. */
  ghost predicate KeepsCommitted(rows: Rows, rows': Rows) {
    forall k :: k in rows && rows[k].committed ==> k in rows' && rows'[k] == rows[k]
  }

  lemma ClaimKeepsInv(s: State, e: Event)
    requires Inv(s) && (e.Begin? || e.Insert? || e.Select?)
    ensures Inv(Next(s, e)) && KeepsCommitted(s.rows, Next(s, e).rows)
  {
    hide Fingerprint;
  }

  lemma CommitKeepsInv(s: State, e: Event)
    requires Inv(s) && (e.Deliver? || e.Commit?)
    ensures Inv(Next(s, e)) && KeepsCommitted(s.rows, Next(s, e).rows)
  {
    hide Fingerprint;
  }

  lemma GiveUpKeepsInv(s: State, e: Event)
    requires Inv(s) && (e.Release? || e.Die?)
    ensures Inv(Next(s, e)) && KeepsCommitted(s.rows, Next(s, e).rows)
  {
    hide Fingerprint;
  }

  lemma NextKeepsInv(s: State, e: Event)
    requires Inv(s)
    ensures Inv(Next(s, e)) && KeepsCommitted(s.rows, Next(s, e).rows)
  {
    hide Inv, KeepsCommitted, Next;
    match e
    case Begin(_, _, _) => ClaimKeepsInv(s, e);
    case Insert(_, _, _) => ClaimKeepsInv(s, e);
    case Select(_, _) => ClaimKeepsInv(s, e);
    case Deliver(_, _) => CommitKeepsInv(s, e);
    case Commit(_, _, _) => CommitKeepsInv(s, e);
    case Release(_, _) => GiveUpKeepsInv(s, e);
    case Die(_) => GiveUpKeepsInv(s, e);
  }

  /** No step forgets a push or changes what it carries. */
  ghost predicate KeepsPushes(pushes: map<nat, Push>, pushes': map<nat, Push>) {
    forall id :: id in pushes ==>
      id in pushes' && pushes'[id].key == pushes[id].key && pushes'[id].content == pushes[id].content
  }

  lemma NextKeepsPushes(s: State, e: Event)
    ensures KeepsPushes(s.pushes, Next(s, e).pushes)
  {
    hide Fingerprint, Inserted, Committed, Released;
  }

  lemma {:induction false} RunKeepsInv(s: State, events: seq<Event>)
    requires Inv(s)
    ensures Inv(Run(s, events)) && KeepsCommitted(s.rows, Run(s, events).rows)
    decreases |events|
  {
    if events != [] {
      NextKeepsInv(s, events[0]);
      RunKeepsInv(Next(s, events[0]), events[1..]);
    }
  }

  /** In every reachable state no two calls own the same row, and an owned uncommitted row holds its owner's content. */
  lemma OneOwner(events: seq<Event>, id: nat, other: nat)
    requires id in Run(Init, events).pushes && Run(Init, events).pushes[id].Owns()
    requires other in Run(Init, events).pushes && Run(Init, events).pushes[other].Owns()
    requires Run(Init, events).pushes[id].key == Run(Init, events).pushes[other].key
    ensures id == other
  {
    RunKeepsInv(Init, events);
    assert OwnerHolds(Run(Init, events), id);
  }

  /**
   Whatever pushes run concurrently, fail and retry: two acknowledged pushes for the same source, target,
   job and sequence carried the same epoch, URI and checksum.
   */
  lemma AcknowledgedPushesAgree(events: seq<Event>, id: nat, other: nat)
    requires CollisionFree()
    requires Stands(Run(Init, events), id, Acknowledged) && Stands(Run(Init, events), other, Acknowledged)
    requires Run(Init, events).pushes[id].key == Run(Init, events).pushes[other].key
    ensures Run(Init, events).pushes[id].content == Run(Init, events).pushes[other].content
  {
    var s := Run(Init, events);
    RunKeepsInv(Init, events);
    assert AckHolds(s, id) && AckHolds(s, other);
    FingerprintIdentifiesContent(s.pushes[id].key, s.pushes[id].content, s.pushes[other].content);
  }

  /** A committed row never changes or vanishes, however the run goes on. */
  lemma CommittedForever(before: seq<Event>, after: seq<Event>)
    ensures KeepsCommitted(Run(Init, before).rows, Run(Init, before + after).rows)
  {
    Runs.RunInTwo(Next, Init, before, after);
    RunKeepsInv(Init, before);
    RunKeepsInv(Run(Init, before), after);
  }

  lemma {:induction false} AcknowledgedStays(s: State, events: seq<Event>, id: nat)
    requires Stands(s, id, Acknowledged)
    ensures Stands(Run(s, events), id, Acknowledged)
    decreases |events|
  {
    if events != [] {
      hide Fingerprint, Inserted, Committed, Released, AlreadyDelivered;
      AcknowledgedStays(Next(s, events[0]), events[1..], id);
    }
  }

  /** And what was acknowledged stays so. */
  lemma AcknowledgedForever(before: seq<Event>, after: seq<Event>, id: nat)
    requires Stands(Run(Init, before), id, Acknowledged)
    ensures Stands(Run(Init, before + after), id, Acknowledged)
  {
    Runs.RunInTwo(Next, Init, before, after);
    AcknowledgedStays(Run(Init, before), after, id);
  }

  // ----- delivery comes before acknowledgement

  /** The push delivered the content of the row. */
  predicate HandedBy(s: State, events: seq<Event>, k: Key, id: nat)
    requires k in s.rows
  {
    && id in s.pushes && s.pushes[id].key == k && s.pushes[id].content == s.rows[k].content
    && Deliver(id, true) in events
  }

  ghost predicate Handed(s: State, events: seq<Event>) {
    && (forall id :: Stands(s, id, Delivered) ==> Deliver(id, true) in events)
    && (forall k :: k in s.rows && s.rows[k].committed ==> exists id :: HandedBy(s, events, k, id))
  }

  /** A row is committed by a push that has delivered its content, and only that way. */
  lemma CommitsDelivered(s: State, e: Event, k: Key)
    requires Inv(s) && k in Next(s, e).rows && Next(s, e).rows[k].committed
    requires !(k in s.rows && s.rows[k].committed)
    ensures e.Commit? && Stands(s, e.id, Delivered) && s.pushes[e.id].key == k
    ensures s.pushes[e.id].content == Next(s, e).rows[k].content
  {
    hide Fingerprint;
    assert e.Commit? ==> OwnerHolds(s, e.id);
  }

  lemma DeliversFirst(s: State, e: Event, id: nat)
    requires Stands(Next(s, e), id, Delivered)
    ensures Stands(s, id, Delivered) || e == Deliver(id, true)
  {
    hide Fingerprint, Inserted, Committed, Released;
  }

  lemma NextKeepsHanded(s: State, events: seq<Event>, e: Event)
    requires Inv(s) && Handed(s, events)
    ensures Handed(Next(s, e), events + [e])
  {
    hide Next, Inv;
    var t := Next(s, e);
    NextKeepsPushes(s, e);
    NextKeepsInv(s, e);
    forall id | Stands(t, id, Delivered)
      ensures Deliver(id, true) in events + [e]
    {
      DeliversFirst(s, e, id);
    }
    forall k | k in t.rows && t.rows[k].committed
      ensures exists id :: HandedBy(t, events + [e], k, id)
    {
      var id;
      if k in s.rows && s.rows[k].committed {
        id :| HandedBy(s, events, k, id);
      } else {
        CommitsDelivered(s, e, k);
        id := e.id;
      }
      assert HandedBy(t, events + [e], k, id);
    }
  }

  lemma {:induction false} RunKeepsHanded(events: seq<Event>)
    ensures Inv(Run(Init, events)) && Handed(Run(Init, events), events)
    decreases |events|
  {
    hide Inv, Handed, Next;
    if events == [] {
      assert Inv(Init) && Handed(Init, []) by {
        NothingHanded();
      }
    } else {
      var front, last := events[..|events| - 1], events[|events| - 1];
      RunKeepsHanded(front);
      assert events == front + [last];
      Runs.RunInTwo(Next, Init, front, [last]);
      assert Run(Init, events) == Next(Run(Init, front), last);
      NextKeepsHanded(Run(Init, front), front, last);
      NextKeepsInv(Run(Init, front), last);
    }
  }

  lemma NothingHanded()
    ensures Inv(Init) && Handed(Init, [])
  {
  }

  /** Whatever runs concurrently, fails or is retried: what is acknowledged was delivered, by this push or another. */
  lemma AcknowledgedWasDelivered(events: seq<Event>, id: nat) returns (giver: nat)
    requires CollisionFree() && Stands(Run(Init, events), id, Acknowledged)
    ensures var s := Run(Init, events);
      && Deliver(giver, true) in events && giver in s.pushes
      && s.pushes[giver].key == s.pushes[id].key && s.pushes[giver].content == s.pushes[id].content
  {
    var s := Run(Init, events);
    RunKeepsHanded(events);
    hide Fingerprint, Run;
    assert AckHolds(s, id);
    var k := s.pushes[id].key;
    giver :| HandedBy(s, events, k, giver);
    FingerprintIdentifiesContent(k, s.rows[k].content, s.pushes[id].content);
  }

  // ----- the code

  datatype Claim = Claimed | Duplicate | Conflict | InProgress | ClaimFailed

  class AdmissionStore {
    var rows: Rows

    /**
     ClaimCheckpoint: the row is now this call's own, was delivered before with the same fingerprint,
     holds other content, or is still being delivered; a storage error says nothing about the row.
     */
    method ClaimCheckpoint(k: Key, c: Content) returns (r: Claim)
      modifies this
      ensures r.Claimed? ==> k !in old(rows) && rows == Inserted(old(rows), k, c)
      ensures r.ClaimFailed? ==> rows == old(rows) || rows == Inserted(old(rows), k, c)
      ensures r.Duplicate? || r.Conflict? || r.InProgress? ==> rows == old(rows) && k in rows
      ensures r.Duplicate? ==> AlreadyDelivered(rows, k, c)
      ensures r.Conflict? ==> rows[k].fingerprint != Fingerprint(k, c)
      ensures r.InProgress? ==> rows[k].fingerprint == Fingerprint(k, c) && !rows[k].committed
      ensures k.source == [] || k.target == [] || k.jobId == [] ==> r == ClaimFailed && rows == old(rows)
    {
      if k.source == [] || k.target == [] || k.jobId == [] {
        return ClaimFailed;
      }
      var existed := k in rows;
      if * {
        if * {
          rows := Inserted(rows, k, c);
        }
        return ClaimFailed;
      }
      rows := Inserted(rows, k, c);
      if !existed {
        return Claimed;
      }
      if * {
        return ClaimFailed;
      }
      if rows[k].fingerprint != Fingerprint(k, c) {
        return Conflict;
      }
      if !rows[k].committed {
        return InProgress;
      }
      return Duplicate;
    }

    method CommitCheckpoint(k: Key) returns (ok: bool)
      modifies this
      ensures rows == old(rows) || rows == Committed(old(rows), k)
      ensures ok ==> k in old(rows) && rows == Committed(old(rows), k)
    {
      if * {
        if * {
          rows := Committed(rows, k);
        }
        return false;
      }
      ok := k in rows;
      rows := Committed(rows, k);
    }

    method ReleaseCheckpoint(k: Key)
      modifies this
      ensures rows == old(rows) || rows == Released(old(rows), k)
    {
      if * {
        rows := Released(rows, k);
      }
    }
  }

  /** The events a subscriber has not taken yet are in its channel. */
  datatype Subscription = Subscription(
    jobId: ByteString, resumeFrom: int, filterBySequence: bool, channel: seq<Request>)

  function Offered(s: Subscription, q: Request): Subscription {
    if (s.jobId != [] && s.jobId != q.jobId) || (s.filterBySequence && q.sequence <= s.resumeFrom) then s
    else s.(channel := s.channel + [q])
  }

  /** A subscriber that is to have an event gets it exactly if it asked for its job and for its sequence. */
  lemma OfferedIff(s: Subscription, q: Request)
    ensures Offered(s, q).channel ==
      if (s.jobId == [] || q.jobId == s.jobId) && (s.filterBySequence ==> s.resumeFrom < q.sequence)
      then s.channel + [q] else s.channel
    ensures Offered(s, q).jobId == s.jobId && Offered(s, q).resumeFrom == s.resumeFrom
    ensures Offered(s, q).filterBySequence == s.filterBySequence
  {
  }

  const CHANNEL_CAPACITY := 128

  datatype Request = Request(
    source: ByteString, target: ByteString, entryRegion: ByteString,
    jobId: ByteString, sequence: int, epoch: int, uri: ByteString, crc: nat)
  {
    predicate Valid() {
      source != [] && target != [] && entryRegion == source && sequence >= 0 && epoch >= 0
    }

    function RowKey(): Key {
      Key(source, target, jobId, if sequence < 0 then 0 else sequence)
    }

    function RowContent(): Content {
      Content(if epoch < 0 then 0 else epoch, uri, crc)
    }
  }

  /** The request's checkpoint is admitted: the row of its source, target, job and sequence is committed. */
  predicate Admits(rows: Rows, q: Request) {
    && 0 <= q.sequence && 0 <= q.epoch
    && var key := Key(q.source, q.target, q.jobId, q.sequence);
    && key in rows && rows[key].committed
    && rows[key].fingerprint == Fingerprint(key, Content(q.epoch, q.uri, q.crc))
  }

  /**
   Two acknowledged requests for one source, target, job and sequence, however far apart: the same epoch,
   URI and checksum.
   */
  lemma AcknowledgedRequestsAgree(rows: Rows, q: Request, later: Rows, p: Request)
    requires CollisionFree() && Admits(rows, q) && KeepsCommitted(rows, later) && Admits(later, p)
    requires q.source == p.source && q.target == p.target && q.jobId == p.jobId && q.sequence == p.sequence
    ensures q.epoch == p.epoch && q.uri == p.uri && q.crc == p.crc
  {
    hide Fingerprint;
    var key := Key(q.source, q.target, q.jobId, q.sequence);
    FingerprintIdentifiesContent(key, Content(q.epoch, q.uri, q.crc), Content(p.epoch, p.uri, p.crc));
  }

  ghost predicate SameElsewhere(rows: Rows, rows': Rows, key: Key) {
    forall k :: k != key ==> (k in rows <==> k in rows') && (k in rows ==> rows'[k] == rows[k])
  }

  lemma KeepsItself(rows: Rows, key: Key)
    ensures KeepsCommitted(rows, rows) && SameElsewhere(rows, rows, key)
  {
  }

  lemma KeepsOnward(rows: Rows, middle: Rows, later: Rows, key: Key)
    requires KeepsCommitted(rows, middle) && SameElsewhere(rows, middle, key)
    requires KeepsCommitted(middle, later) && SameElsewhere(middle, later, key)
    ensures KeepsCommitted(rows, later) && SameElsewhere(rows, later, key)
  {
  }

  datatype Response = Ack(sequence: int) | InvalidArgument | AlreadyExists | ResourceExhausted | Internal | Cancelled

  /** A claim as the steps of a push: an insert, and a select if the row was there. */
  lemma ClaimSteps(was: Rows, k: Key, c: Content, now: Rows, claim: Claim)
    requires claim.Claimed? ==> k !in was && now == Inserted(was, k, c)
    requires claim.ClaimFailed? ==> now == was || now == Inserted(was, k, c)
    requires claim.Duplicate? || claim.Conflict? || claim.InProgress? ==> now == was && k in now
    requires claim.Duplicate? ==> AlreadyDelivered(now, k, c)
    requires claim.Conflict? || claim.InProgress? ==> !AlreadyDelivered(now, k, c)
    ensures var s := State(was, map[0 := Push(k, c, Claiming)]);
      var t := Next(s, Insert(0, claim != ClaimFailed || now != was, claim != ClaimFailed));
      && t.rows == now && 0 in t.pushes && t.pushes[0].key == k
      && (claim.Claimed? ==> Stands(t, 0, Delivering)) && (claim.ClaimFailed? ==> Stands(t, 0, Refused))
      && (claim.Duplicate? || claim.Conflict? || claim.InProgress? ==>
            var u := Next(t, Select(0, true));
            u.rows == now && Stands(u, 0, if claim.Duplicate? then Acknowledged else Refused))
  {
    hide Fingerprint;
  }

  class Service {
    const store: AdmissionStore
    var subscribers: map<ByteString, seq<Subscription>>
    var acknowledged: map<ByteString, int>

    constructor (store: AdmissionStore)
      ensures this.store == store && subscribers == map[] && acknowledged == map[]
    {
      this.store, subscribers, acknowledged := store, map[], map[];
    }

    ghost function HighWater(region: ByteString): int
      reads this
    {
      if region in acknowledged then acknowledged[region] else 0
    }

    ghost function SubscriptionsOf(region: ByteString): seq<Subscription>
      reads this
    {
      if region in subscribers then subscribers[region] else []
    }

    /** StreamCheckpoints, up to its loop: a resume point that is not positive filters nothing. */
    method Subscribe(region: ByteString, jobId: ByteString, resumeFrom: int) returns (ok: bool)
      modifies this`subscribers
      ensures ok <==> region != [] && 0 <= resumeFrom
      ensures var added := if ok then [Subscription(jobId, resumeFrom, 0 < resumeFrom, [])] else [];
        SubscriptionsOf(region) == old(SubscriptionsOf(region)) + added
      ensures forall other :: other != region ==> SubscriptionsOf(other) == old(SubscriptionsOf(other))
    {
      if region == [] || resumeFrom < 0 {
        return false;
      }
      var subs := if region in subscribers then subscribers[region] else [];
      subscribers := subscribers[region := subs + [Subscription(jobId, resumeFrom, resumeFrom > 0, [])]];
      return true;
    }

    /** Every subscriber that asked for the event has it in its channel; the channels of the others are as they were. */
    twostate predicate AllHave(q: Request)
      reads this
    {
      && |SubscriptionsOf(q.target)| == |old(SubscriptionsOf(q.target))|
      && forall i :: 0 <= i < |SubscriptionsOf(q.target)| ==>
        SubscriptionsOf(q.target)[i] == Offered(old(SubscriptionsOf(q.target))[i], q)
    }

    /** The mark of the region is the larger of what it was and the sequence. */
    twostate predicate Marked(region: ByteString, sequence: int)
      reads this
    {
      && sequence <= HighWater(region) && old(HighWater(region)) <= HighWater(region)
      && (HighWater(region) == sequence || HighWater(region) == old(HighWater(region)))
    }

    /**
     PushCheckpoint. An acknowledgement means a committed row with this push's content, and that every
     subscriber was given the event, by this push or by the one that committed the row before. What is
     answered to a push whose row is there already depends on that row alone, unless storage fails. No other
     row is touched, no committed row changes, and the high-water mark never falls. Every call is a run of
     the concurrent model's steps that ends in its own answer.
     */
    method PushCheckpoint(q: Request) returns (r: Response, ghost trace: seq<Event>)
      modifies this`acknowledged, this`subscribers, store
      ensures r == InvalidArgument <==>
        q.source == [] || q.target == [] || q.entryRegion != q.source || q.sequence < 0 || q.epoch < 0
      ensures r == InvalidArgument ==> store.rows == old(store.rows)
      ensures r != InvalidArgument ==>
        var key, content := Key(q.source, q.target, q.jobId, q.sequence), Content(q.epoch, q.uri, q.crc);
        var end := Run(State(old(store.rows), map[0 := Push(key, content, Claiming)]), trace);
        && end.rows == store.rows && Stands(end, 0, if r.Ack? then Acknowledged else Refused)
        && SameElsewhere(old(store.rows), store.rows, key)
        && (if key in old(store.rows) then
              && store.rows == old(store.rows) && acknowledged == old(acknowledged) && subscribers == old(subscribers)
              && var same, done := store.rows[key].fingerprint == Fingerprint(key, content), store.rows[key].committed;
              && (r == AlreadyExists <==> r != Internal && !same)
              && (r == Ack(q.sequence) <==> r != Internal && same && done)
              && (r == ResourceExhausted <==> r != Internal && same && !done)
            else r != AlreadyExists && (r.Ack? ==> AllHave(q) && Marked(q.target, q.sequence)))
      ensures r.Ack? ==> r.sequence == q.sequence && Admits(store.rows, q)
      ensures KeepsCommitted(old(store.rows), store.rows)
      ensures forall region :: HighWater(region) >= old(HighWater(region))
      ensures forall region :: region != q.target ==> HighWater(region) == old(HighWater(region))
    {
      hide Fingerprint, Runs.Run, Next, Released, Committed;
      if !q.Valid() {
        return InvalidArgument, [];
      }
      ghost var start := State(store.rows, map[0 := Push(q.RowKey(), q.RowContent(), Claiming)]);
      ghost var was := store.rows;
      var claim := store.ClaimCheckpoint(q.RowKey(), q.RowContent());
      ClaimSteps(was, q.RowKey(), q.RowContent(), store.rows, claim);
      Runs.RunOfNothing(Next, start);
      trace := Runs.Extend(Next, start, [], Insert(0, claim != ClaimFailed || store.rows != was, claim != ClaimFailed));
      match claim {
        case Claimed =>
          r, trace := DeliverAndCommit(q, start, trace);
          return;
        case ClaimFailed => return Internal, trace;
        case Conflict => r := AlreadyExists;
        case InProgress => r := ResourceExhausted;
        case Duplicate => r := Ack(q.sequence);
      }
      trace := Runs.Extend(Next, start, trace, Select(0, true));
    }

    /** The part of PushCheckpoint that runs once the row is this call's own. */
    method DeliverAndCommit(q: Request, ghost start: State, ghost before: seq<Event>)
      returns (r: Response, ghost trace: seq<Event>)
      requires q.Valid() && Stands(Run(start, before), 0, Delivering) && Run(start, before).rows == store.rows
      requires Run(start, before).pushes[0].key == q.RowKey()
      requires q.RowKey() in store.rows
      requires store.rows[q.RowKey()] == Row(q.RowContent(), Fingerprint(q.RowKey(), q.RowContent()), false)
      modifies this`acknowledged, this`subscribers, store
      ensures Run(start, trace).rows == store.rows && !r.InvalidArgument? && !r.AlreadyExists?
      ensures Stands(Run(start, trace), 0, if r.Ack? then Acknowledged else Refused)
      ensures r.Ack? ==> r.sequence == q.sequence && Admits(store.rows, q)
      ensures r.Ack? ==> AllHave(q) && Marked(q.target, q.sequence)
      ensures KeepsCommitted(old(store.rows), store.rows) && SameElsewhere(old(store.rows), store.rows, q.RowKey())
      ensures forall region :: HighWater(region) >= old(HighWater(region))
      ensures forall region :: region != q.target ==> HighWater(region) == old(HighWater(region))
    {
      hide Fingerprint, Runs.Run, Released, Committed, KeepsCommitted, SameElsewhere;
      ghost var was := store.rows;
      var stopped := DeliverAll(q);
      trace := Runs.Extend(Next, start, before, Deliver(0, stopped.None?));
      if stopped.None? {
        RaiseMark(q.target, q.sequence);
        var ok;
        ok, trace := CommitOwn(q, start, trace);
        if ok {
          return Ack(q.sequence), trace;
        }
      }
      ghost var kept := store.rows;
      KeepsItself(was, q.RowKey());
      trace := GiveUp(q, start, trace);
      KeepsOnward(was, kept, store.rows, q.RowKey());
      return if stopped.Some? then stopped.value else Internal, trace;
    }

    method CommitOwn(q: Request, ghost start: State, ghost before: seq<Event>)
      returns (ok: bool, ghost trace: seq<Event>)
      requires Stands(Run(start, before), 0, Delivered) && Run(start, before).rows == store.rows
      requires Run(start, before).pushes[0].key == q.RowKey()
      requires q.RowKey() in store.rows && store.rows[q.RowKey()].fingerprint == Fingerprint(q.RowKey(), q.RowContent())
      requires !store.rows[q.RowKey()].committed
      modifies store
      ensures Run(start, trace).rows == store.rows
      ensures Stands(Run(start, trace), 0, if ok then Acknowledged else Releasing)
      ensures Run(start, trace).pushes[0].key == q.RowKey()
      ensures ok ==> AlreadyDelivered(store.rows, q.RowKey(), q.RowContent())
      ensures KeepsCommitted(old(store.rows), store.rows) && SameElsewhere(old(store.rows), store.rows, q.RowKey())
    {
      hide Fingerprint, Runs.Run;
      ok := store.CommitCheckpoint(q.RowKey());
      trace := Runs.Extend(Next, start, before, Commit(0, ok || store.rows != old(store.rows), ok));
    }

    method GiveUp(q: Request, ghost start: State, ghost before: seq<Event>) returns (ghost trace: seq<Event>)
      requires Stands(Run(start, before), 0, Releasing) && Run(start, before).rows == store.rows
      requires Run(start, before).pushes[0].key == q.RowKey()
      modifies store
      ensures Run(start, trace).rows == store.rows && Stands(Run(start, trace), 0, Refused)
      ensures KeepsCommitted(old(store.rows), store.rows) && SameElsewhere(old(store.rows), store.rows, q.RowKey())
    {
      hide Runs.Run;
      store.ReleaseCheckpoint(q.RowKey());
      trace := Runs.Extend(Next, start, before, Release(0, store.rows != old(store.rows)));
    }

    /**
     Offers the event to each matching subscriber of the target, in turn; the reason to stop, if any: the
     caller gave up, or the channel of a subscriber that asked for the event is full.
     */
    method DeliverAll(q: Request) returns (stopped: Option<Response>)
      modifies this`subscribers
      ensures stopped.None? ==> AllHave(q)
      ensures stopped.Some? ==> stopped.value == Cancelled || stopped.value == ResourceExhausted
      ensures stopped == Some(ResourceExhausted) ==>
        exists i :: 0 <= i < |old(SubscriptionsOf(q.target))| && |old(SubscriptionsOf(q.target))[i].channel| >= 128
      ensures forall region :: region != q.target ==> SubscriptionsOf(region) == old(SubscriptionsOf(region))
    {
      if q.target !in subscribers {
        return None;
      }
      var subs := subscribers[q.target];
      for i := 0 to |subs|
        invariant q.target in subscribers && |subscribers[q.target]| == |subs|
        invariant forall j :: 0 <= j < i ==> subscribers[q.target][j] == Offered(subs[j], q)
        invariant forall j :: i <= j < |subs| ==> subscribers[q.target][j] == subs[j]
        invariant forall region :: region != q.target ==> SubscriptionsOf(region) == old(SubscriptionsOf(region))
      {
        if (subs[i].jobId != [] && subs[i].jobId != q.jobId)
           || (subs[i].filterBySequence && q.sequence <= subs[i].resumeFrom) {
          continue;
        }
        if * {
          return Some(Cancelled);
        }
        if |subs[i].channel| >= CHANNEL_CAPACITY {
          assert |old(SubscriptionsOf(q.target))[i].channel| >= 128;
          return Some(ResourceExhausted);
        }
        var given := subs[i].(channel := subs[i].channel + [q]);
        subscribers := subscribers[q.target := subscribers[q.target][i := given]];
      }
      return None;
    }

    /** ReportReplicationStatus: the larger of the reported and the recorded sequence. */
    method ReportReplicationStatus(region: ByteString, lastReplicated: int, lag: int) returns (mark: Option<int>)
      modifies this`acknowledged
      ensures mark.Some? <==> region != [] && lag >= 0 && lastReplicated >= 0
      ensures mark.Some? ==> mark.value == HighWater(region)
      ensures mark.Some? ==>
        HighWater(region) == if lastReplicated > old(HighWater(region)) then lastReplicated else old(HighWater(region))
      ensures forall other :: other != region || mark.None? ==> HighWater(other) == old(HighWater(other))
    {
      if region == [] || lag < 0 || lastReplicated < 0 {
        return None;
      }
      RaiseMark(region, lastReplicated);
      return Some(if region in acknowledged then acknowledged[region] else 0);
    }

    method RaiseMark(region: ByteString, sequence: int)
      modifies this`acknowledged
      ensures HighWater(region) == if sequence > old(HighWater(region)) then sequence else old(HighWater(region))
      ensures forall other :: other != region ==> HighWater(other) == old(HighWater(other))
    {
      if sequence > (if region in acknowledged then acknowledged[region] else 0) {
        acknowledged := acknowledged[region := sequence];
      }
    }
  }
}
