/**
 Listing security audit events (control-plane/api-server/internal/service/audit_service.go over the
 keyset query of control-plane/auth/postgres/repository.go). Times are nanoseconds since 1970; a page
 token is its claims, the signature admitting no others.
 */
module AuditPaging {
  import opened Outcomes
  import opened Keyset

  datatype Event = Event(
    eventId: string, eventType: string, actorId: string, tenantId: string,
    requestId: string, outcome: string, occurredAt: int)

  const DEFAULT_PAGE_SIZE := 50
  const MAXIMUM_PAGE_SIZE := 100
  const SECOND := 1_000_000_000
  const DEFAULT_WINDOW := 24 * 3600 * SECOND
  const MAXIMUM_WINDOW := 90 * 24 * 3600 * SECOND
  const TOKEN_LIFETIME := 15 * 60 * SECOND
  const MAXIMUM_FILTER_VALUES := 20
  /** time.Time's zero value, in nanoseconds since 1970. */
  const ZERO_TIME := -62_135_596_800 * SECOND

  const IsTenantId: string -> bool
  const IsEventType: string -> bool
  const IsOutcome: string -> bool
  const IsBlank: string -> bool

  // ----- the order of the listing

  /** Newest first; among equal times the larger identifier first. */
  predicate Before(a: Event, b: Event) {
    a.occurredAt > b.occurredAt || (a.occurredAt == b.occurredAt && Less(b.eventId, a.eventId))
  }

  lemma BeforeIsStrict()
    ensures StrictOrder(Before)
  {
    forall x: Event
      ensures !Before(x, x)
    {
      LessIsIrreflexive(x.eventId);
    }
    forall x: Event, y: Event, z: Event | Before(x, y) && Before(y, z)
      ensures Before(x, z)
    {
      if x.occurredAt == y.occurredAt == z.occurredAt {
        LessIsTransitive(z.eventId, y.eventId, x.eventId);
      }
    }
  }

  /** event_id is the primary key. */
  ghost predicate UniqueIds(events: set<Event>) {
    forall a, b :: a in events && b in events && a.eventId == b.eventId ==> a == b
  }

  lemma BeforeIsTotal(events: set<Event>)
    requires UniqueIds(events)
    ensures TotalOn(Before, events)
  {
    forall x, y | x in events && y in events
      ensures x == y || Before(x, y) || Before(y, x)
    {
      LessIsTotal(x.eventId, y.eventId);
    }
  }

  // ----- queries

  datatype Position = Position(occurredAt: int, eventId: string)

  datatype Query = Query(
    tenantId: string, after: int, before: int, eventTypes: seq<string>, outcomes: seq<string>,
    cursor: Option<Position>, limit: int)

  predicate ValidFilter(values: seq<string>, shape: string -> bool) {
    && |values| <= MAXIMUM_FILTER_VALUES
    && (forall i :: 0 <= i < |values| ==> shape(values[i]))
    && (forall i :: 0 < i < |values| ==> Less(values[i - 1], values[i]))
  }

  predicate ValidPosition(p: Position, after: int, before: int) {
    && p.occurredAt != ZERO_TIME && after <= p.occurredAt <= before
    && !IsBlank(p.eventId) && |p.eventId| <= 128
    && '\0' !in p.eventId && '\r' !in p.eventId && '\n' !in p.eventId
  }

  /** SecurityAuditQuery.Validate */
  predicate ValidQuery(q: Query) {
    && IsTenantId(q.tenantId)
    && q.after != ZERO_TIME && q.before != ZERO_TIME && q.after < q.before && q.before - q.after <= MAXIMUM_WINDOW
    && 0 < q.limit <= MAXIMUM_PAGE_SIZE + 1
    && ValidFilter(q.eventTypes, IsEventType) && ValidFilter(q.outcomes, IsOutcome)
    && (q.cursor.Some? ==> ValidPosition(q.cursor.value, q.after, q.before))
  }

  predicate Matches(q: Query, e: Event) {
    && e.tenantId == q.tenantId && q.after <= e.occurredAt <= q.before
    && (q.eventTypes == [] || e.eventType in q.eventTypes)
    && (q.outcomes == [] || e.outcome in q.outcomes)
  }

  predicate BehindCursor(q: Query, e: Event) {
    q.cursor.None? || e.occurredAt < q.cursor.value.occurredAt
    || (e.occurredAt == q.cursor.value.occurredAt && Less(e.eventId, q.cursor.value.eventId))
  }

  function Matching(q: Query, events: set<Event>): set<Event> {
    set e | e in events && Matches(q, e)
  }

  // ----- requests and page tokens

  datatype Claims = Claims(
    tenantId: string, policyRevision: string, after: int, snapshot: int, eventTypes: seq<string>, outcomes: seq<string>,
    pageSize: int, cursor: Position, expiresAt: int)

  datatype Request = Request(
    tenantId: string, pageSize: int, token: Option<Claims>,
    occurredAfter: Option<int>, occurredBefore: Option<int>, eventTypes: seq<string>, outcomes: seq<string>)

  datatype Error = InvalidArgument | Internal

  type Result<+T> = Fallible<T, Error>

  function Seconds(t: int): int { t / SECOND }

  /** The query a page token stands for. */
  function TokenQuery(c: Claims): Query {
    Query(c.tenantId, c.after, c.snapshot, c.eventTypes, c.outcomes, Some(c.cursor), c.pageSize + 1)
  }

  predicate TokenUsable(c: Claims, r: Request, policy: string, pageSize: int, now: int) {
    && r.occurredAfter.None? && r.occurredBefore.None? && r.eventTypes == [] && r.outcomes == []
    && c.expiresAt > Seconds(now) && c.tenantId == r.tenantId && c.policyRevision == policy
    && (pageSize == 0 || c.pageSize == pageSize)
    && c.cursor.occurredAt != 0 && c.cursor.eventId != ""
    && ValidQuery(TokenQuery(c))
  }

  /** AuditService.query: the repository query and the claims of the next token, without a position. */
  function BuildQuery(r: Request, policy: string, pageSize: int, now: int): Result<(Query, Claims)> {
    if r.token.Some? then
      var c := r.token.value;
      if TokenUsable(c, r, policy, pageSize, now) then Ok((TokenQuery(c), c)) else Err(InvalidArgument)
    else
      var before := if r.occurredBefore.Some? then r.occurredBefore.value else now;
      if before > now then Err(InvalidArgument) else
      var after := if r.occurredAfter.Some? then r.occurredAfter.value else before - DEFAULT_WINDOW;
      var q := Query(r.tenantId, after, before, r.eventTypes, r.outcomes, None, pageSize + 1);
      if !ValidQuery(q) then Err(InvalidArgument) else
      Ok((q, Claims(r.tenantId, policy, after, before, r.eventTypes, r.outcomes, pageSize, Position(0, ""),
                    Seconds(now + TOKEN_LIFETIME))))
  }

  datatype Response = Response(events: seq<Event>, next: Option<Claims>)

  /** How many events a page may hold: the request's own size, the default, or the token's. */
  function PageSize(r: Request): int {
    if r.pageSize == 0 && r.token.None? then DEFAULT_PAGE_SIZE
    else if r.pageSize == 0 then r.token.value.pageSize
    else r.pageSize
  }

  class AuditService {
    /** The audit table. */
    var events: set<Event>

    /** ListSecurityAudit: the first rows of the window behind the cursor. */
    method ListSecurityAudit(q: Query) returns (rows: seq<Event>)
      requires UniqueIds(events) && q.limit >= 0
      ensures StrictlySorted(Before, rows) && |rows| <= q.limit
      ensures forall e :: e in rows ==> e in Matching(q, events) && BehindCursor(q, e)
      ensures forall e, d :: e in Matching(q, events) && BehindCursor(q, e) && e !in rows && d in rows ==> Before(d, e)
      ensures |rows| < q.limit ==> forall e :: e in Matching(q, events) && BehindCursor(q, e) ==> e in rows
    {
      var table := set e | e in events && Matches(q, e) && BehindCursor(q, e);
      BeforeIsStrict();
      BeforeIsTotal(events);
      assert TotalOn(Before, table);
      rows := FirstRows(Before, table, q.limit);
    }

    /** One page and the token for the next, from a query asking for one row more than fits. */
    method FetchPage(q: Query, claims: Claims, size: nat) returns (a: Response)
      requires UniqueIds(events) && 0 < size && q.limit == size + 1
      ensures IsWindowPage(q, events, size, a.events, a.next.Some?)
      ensures a.next.Some? ==> a.events != [] && a.next.value == claims.(cursor := PositionOf(a.events[|a.events| - 1]))
    {
      var rows := ListSecurityAudit(q);
      var page := rows;
      var next := None;
      if |rows| > size {
        page := rows[..size];
        next := Some(claims.(cursor := PositionOf(page[|page| - 1])));
      }
      Truncates(q, events, rows, page, size);
      return Response(page, next);
    }

    /** WriteSecurityAudit: an insert under the primary key; one that fails may have been applied. */
    method WriteSecurityAudit(record: Event) returns (ok: bool)
      requires UniqueIds(events)
      modifies this
      ensures UniqueIds(events) && (events == old(events) || events == old(events) + {record})
      ensures ok ==> events == old(events) + {record}
      ensures (exists e :: e in old(events) && e.eventId == record.eventId) ==> !ok && events == old(events)
    {
      var answered: bool, applied: bool := *, *;
      if (exists e :: e in events && e.eventId == record.eventId) || !(answered || applied) {
        return false;
      }
      events := events + {record};
      return answered;
    }

    /**
     ListAuditEvents: a page of the window, from where the token left off, and a token for the next one
     exactly when rows remain. A page is handed out only if the read itself was recorded as one more event.
     */
    method ListAuditEvents(r: Request, policy: string, now: int, record: Event) returns (answer: Result<Response>)
      requires UniqueIds(events) && (r.token.Some? ==> Minted(r.token.value))
      modifies this
      ensures answer == Err(InvalidArgument) <==>
        r.pageSize < 0 || r.pageSize > MAXIMUM_PAGE_SIZE || Asked(r, policy, now).Err?
      ensures UniqueIds(events) && (events == old(events) || events == old(events) + {record})
      ensures answer == Err(InvalidArgument) ==> events == old(events)
      ensures answer.Ok? ==> events == old(events) + {record}
      ensures answer.Ok? ==> Answers(r, policy, now, old(events), answer.value)
    {
      hide IsWindowPage, ValidQuery;
      var pageSize := r.pageSize;
      if pageSize == 0 && r.token.None? {
        pageSize := DEFAULT_PAGE_SIZE;
      }
      if pageSize < 0 || pageSize > MAXIMUM_PAGE_SIZE {
        return Err(InvalidArgument);
      }
      var built := BuildQuery(r, policy, pageSize, now);
      if built.Err? {
        return Err(InvalidArgument);
      }
      var (q, claims) := built.value;
      if pageSize == 0 {
        pageSize := claims.pageSize;
      }
      var available: bool := *;
      if !available {
        return Err(Internal);
      }
      var response := FetchPage(q, claims, pageSize);
      var recorded := WriteSecurityAudit(record);
      return if recorded then Ok(response) else Err(Internal);
    }
  }

  /** The claims this service signs: a page size it accepted. */
  predicate Minted(c: Claims) { 0 < c.pageSize <= MAXIMUM_PAGE_SIZE }

  /** What the request asks of the repository. */
  function Asked(r: Request, policy: string, now: int): Result<(Query, Claims)> {
    BuildQuery(r, policy, if r.token.None? then PageSize(r) else r.pageSize, now)
  }

  /** The page and its token are right for the table at the time of the request. */
  ghost predicate Answers(r: Request, policy: string, now: int, events: set<Event>, a: Response) {
    Asked(r, policy, now).Ok? &&
    var (q, claims) := Asked(r, policy, now).value;
    && 0 < PageSize(r) == claims.pageSize <= MAXIMUM_PAGE_SIZE
    && IsWindowPage(q, events, PageSize(r), a.events, a.next.Some?)
    && (a.next.Some? ==> a.events != [] && a.next.value == claims.(cursor := PositionOf(a.events[|a.events| - 1])))
  }

  // ----- what a first request asks for

  function To(r: Request, now: int): int { if r.occurredBefore.None? then now else r.occurredBefore.value }

  /** A request without a beginning looks back 24 hours from its end. */
  function From(r: Request, now: int): int {
    if r.occurredAfter.None? then To(r, now) - 86_400_000_000_000 else r.occurredAfter.value
  }

  function Size(r: Request): int { if r.pageSize == 0 then 50 else r.pageSize }

  /** Of the tenant, in the window, and of one of the types and outcomes if any are given. */
  predicate AskedFor(r: Request, now: int, e: Event) {
    && e.tenantId == r.tenantId && From(r, now) <= e.occurredAt <= To(r, now)
    && (r.eventTypes != [] ==> e.eventType in r.eventTypes)
    && (r.outcomes != [] ==> e.outcome in r.outcomes)
  }

  predicate FilterOk(values: seq<string>, shape: string -> bool) {
    |values| <= 20 && forall i :: 0 <= i < |values| ==> shape(values[i]) && (i > 0 ==> Less(values[i - 1], values[i]))
  }

  /**
   A request without a token is accepted if and only if its window ends by now and spans at most 90 days, its
   filters are sorted and short, and its page size is at most 100. The token it leads to lasts 15 minutes.
   */
  lemma RequestIsAcceptedIff(r: Request, policy: string, now: int)
    requires r.token.None?
    ensures Asked(r, policy, now).Ok? <==>
      && IsTenantId(r.tenantId) && 0 <= Size(r) <= 100 && FilterOk(r.eventTypes, IsEventType)
      && FilterOk(r.outcomes, IsOutcome) && To(r, now) <= now && From(r, now) < To(r, now)
      && To(r, now) - From(r, now) <= 7_776_000_000_000_000
      && From(r, now) != -62_135_596_800_000_000_000 && To(r, now) != -62_135_596_800_000_000_000
    ensures Asked(r, policy, now).Ok? ==>
      var (q, claims) := Asked(r, policy, now).value;
      && (forall e :: Matches(q, e) <==> AskedFor(r, now, e)) && (forall e :: BehindCursor(q, e))
      && claims.tenantId == r.tenantId && claims.policyRevision == policy && claims.pageSize == Size(r)
      && claims.after == From(r, now) && claims.snapshot == To(r, now)
      && claims.eventTypes == r.eventTypes && claims.outcomes == r.outcomes
      && claims.expiresAt == (now + 900_000_000_000) / 1_000_000_000
  {
  }

  /** The first page holds what was asked for, newest first, and a token comes with it exactly if more is left. */
  lemma FirstPageIsAskedFor(r: Request, policy: string, now: int, events: set<Event>, a: Response)
    requires r.token.None? && Answers(r, policy, now, events, a)
    ensures |a.events| <= Size(r) && forall e :: e in a.events ==> e in events && AskedFor(r, now, e)
    ensures a.next.Some? <==> exists e :: e in events && AskedFor(r, now, e) && e !in a.events
    ensures forall i, j :: 0 <= i < j < |a.events| ==> a.events[i].occurredAt >= a.events[j].occurredAt
    ensures forall e, d :: e in events && AskedFor(r, now, e) && e !in a.events && d in a.events ==>
      d.occurredAt >= e.occurredAt
  {
    RequestIsAcceptedIff(r, policy, now);
    hide ValidQuery, Matches, AskedFor;
    var (q, claims) := Asked(r, policy, now).value;
    assert forall e :: e in Matching(q, events) <==> e in events && AskedFor(r, now, e);
  }

  /** A later page holds what the token stands for: the same tenant, window and filters, behind the last row. */
  lemma LaterPageIsAskedFor(r: Request, policy: string, now: int, events: set<Event>, a: Response)
    requires r.token.Some? && Answers(r, policy, now, events, a)
    ensures var c := r.token.value;
      && c.tenantId == r.tenantId && c.policyRevision == policy && now / 1_000_000_000 < c.expiresAt
      && |a.events| <= c.pageSize
      && forall e :: e in a.events ==>
        && e in events && e.tenantId == r.tenantId && c.after <= e.occurredAt <= c.snapshot
        && (c.eventTypes != [] ==> e.eventType in c.eventTypes) && (c.outcomes != [] ==> e.outcome in c.outcomes)
        && (e.occurredAt < c.cursor.occurredAt
            || (e.occurredAt == c.cursor.occurredAt && Less(e.eventId, c.cursor.eventId)))
  {
    hide ValidQuery;
  }

  function PositionOf(e: Event): Position { Position(e.occurredAt, e.eventId) }

  ghost predicate IsWindowPage(q: Query, events: set<Event>, size: nat, rows: seq<Event>, more: bool) {
    && StrictlySorted(Before, rows) && |rows| <= size
    && (forall e :: e in rows ==> e in Matching(q, events) && BehindCursor(q, e))
    && (forall e, d :: e in Matching(q, events) && BehindCursor(q, e) && e !in rows && d in rows ==> Before(d, e))
    && (more ==> |rows| == size)
    && (more <==> exists e :: e in Matching(q, events) && BehindCursor(q, e) && e !in rows)
  }

  /** Asking for one row more than the page holds tells whether any are left. */
  lemma Truncates(q: Query, events: set<Event>, rows: seq<Event>, page: seq<Event>, size: nat)
    requires size + 1 == q.limit
    requires StrictlySorted(Before, rows) && |rows| <= q.limit
    requires forall e :: e in rows ==> e in Matching(q, events) && BehindCursor(q, e)
    requires forall e, d :: e in Matching(q, events) && BehindCursor(q, e) && e !in rows && d in rows ==> Before(d, e)
    requires |rows| < q.limit ==> forall e :: e in Matching(q, events) && BehindCursor(q, e) ==> e in rows
    requires page == if |rows| > size then rows[..size] else rows
    ensures IsWindowPage(q, events, size, page, |rows| > size)
  {
    BeforeIsStrict();
    if |rows| > size {
      var extra := rows[size];
      assert extra in rows && extra !in page;
      assert forall e :: e in rows && e !in page ==> e == extra;
    }
  }

  // ----- a client following the tokens

  datatype Exchange = Exchange(events: set<Event>, request: Request, policy: string, now: int, answer: Response)

  /** A request that continues from a token, changing nothing else. */
  predicate Continues(r: Request, c: Claims) {
    r.token == Some(c)
  }

  /** Every exchange is answered, continues with the token of the one before,
     and the last has no token; events are only added. */
  ghost predicate Conversation(x: seq<Exchange>)
    decreases |x|
  {
    && x != [] && Answers(x[0].request, x[0].policy, x[0].now, x[0].events, x[0].answer)
    && (if x[0].answer.next.None? then |x| == 1
        else |x| > 1 && x[0].events <= x[1].events && Continues(x[1].request, x[0].answer.next.value)
                 && Conversation(x[1..]))
  }

  /** The pages of a conversation, each with the matching rows of its time. */
  ghost function Fetches(q: Query, x: seq<Exchange>): seq<Fetch<Event>>
    decreases |x|
  {
    if x == [] then [] else
    [Fetch(Matching(q, x[0].events), x[0].answer.events, x[0].answer.next.Some?)] + Fetches(q, x[1..])
  }

  /** Two queries over the same window and filters. */
  predicate SameWindow(p: Query, q: Query) {
    p.tenantId == q.tenantId && p.after == q.after && p.before == q.before
    && p.eventTypes == q.eventTypes && p.outcomes == q.outcomes
  }

  lemma PageOfWindow(
      q: Query, w: Query, events: set<Event>, size: nat, rows: seq<Event>, more: bool, cursor: Cursor<Event>)
    requires IsWindowPage(q, events, size, rows, more) && SameWindow(q, w)
    requires if cursor.Start? then q.cursor.None? else q.cursor == Some(PositionOf(cursor.last))
    ensures IsPage(Before, Matching(w, events), cursor, size, rows, more)
  {
    assert Matching(q, events) == Matching(w, events);
    assert forall e :: BehindCursor(q, e) == Past(Before, cursor, e);
  }

  lemma {:induction false} ConversationFollows(x: seq<Exchange>, w: Query, size: nat, cursor: Cursor<Event>)
    requires Conversation(x) && size > 0
    requires var r := x[0].request; var (q, claims) := Asked(r, x[0].policy, x[0].now).value;
      && SameWindow(q, w) && PageSize(r) == size
      && (if cursor.Start? then q.cursor.None? else q.cursor == Some(PositionOf(cursor.last)))
    ensures Follows(Before, cursor, size, Fetches(w, x))
    decreases |x|
  {
    hide ValidQuery, IsWindowPage, IsPage;
    var r := x[0].request;
    var (q, claims) := Asked(r, x[0].policy, x[0].now).value;
    PageOfWindow(q, w, x[0].events, size, x[0].answer.events, x[0].answer.next.Some?, cursor);
    var f := Fetches(w, x);
    assert f[1..] == Fetches(w, x[1..]);
    if x[0].answer.next.Some? {
      var last := x[0].answer.events[|x[0].answer.events| - 1];
      TokenKeepsWindow(x[0], x[1], last);
      ConversationFollows(x[1..], w, size, After(last));
    } else {
      assert x[1..] == [];
    }
  }

  /** The token carries the window, the filters and the page size on, and the position of the last row. */
  lemma TokenKeepsWindow(x: Exchange, y: Exchange, last: Event)
    requires Answers(x.request, x.policy, x.now, x.events, x.answer) && x.answer.next.Some?
    requires Continues(y.request, x.answer.next.value) && Answers(y.request, y.policy, y.now, y.events, y.answer)
    requires last == x.answer.events[|x.answer.events| - 1]
    ensures var (q, _) := Asked(x.request, x.policy, x.now).value;
      var (p, _) := Asked(y.request, y.policy, y.now).value;
      SameWindow(p, q) && p.cursor == Some(PositionOf(last)) && PageSize(y.request) == PageSize(x.request)
  {
    hide ValidQuery, IsWindowPage;
  }

  lemma {:induction false} TokensCollectMatching(x: seq<Exchange>)
    requires Conversation(x) && x[0].request.token.None?
    ensures var (q, _) := Asked(x[0].request, x[0].policy, x[0].now).value; var rows := AllRows(Fetches(q, x));
      && StrictlySorted(Before, rows) && (forall e :: e in Matching(q, x[0].events) ==> e in rows)
      && forall e :: e in rows ==> Matches(q, e) && exists i :: 0 <= i < |x| && e in x[i].events
  {
    hide ValidQuery, IsWindowPage, Follows;
    var (q, _) := Asked(x[0].request, x[0].policy, x[0].now).value;
    var size, fetches := PageSize(x[0].request), Fetches(q, x);
    ConversationFollows(x, q, size, Start);
    BeforeIsStrict();
    FollowedPages(Before, Start, size, fetches);
    forall e | e in AllRows(fetches)
      ensures Matches(q, e) && exists i :: 0 <= i < |x| && e in x[i].events
    {
      var i := FollowedRowsWereThere(Before, Start, size, fetches, e);
      FetchAt(q, x, i);
    }
  }

  /**
   Following the tokens to the end, with any page size and any events recorded meanwhile: every matching
   event present at the first request comes back exactly once, newest first, and what comes back matches the
   first request and was recorded by the time of one of the requests.
   */
  lemma FollowingTokensMissesNothing(x: seq<Exchange>)
    requires Conversation(x) && x[0].request.token.None?
    ensures var (q, _) := Asked(x[0].request, x[0].policy, x[0].now).value; var rows := AllRows(Fetches(q, x));
      && StrictlySorted(Before, rows)
      && (forall e :: e in x[0].events && AskedFor(x[0].request, x[0].now, e) ==> e in rows)
      && (forall e :: e in rows ==>
            AskedFor(x[0].request, x[0].now, e) && exists i :: 0 <= i < |x| && e in x[i].events)
  {
    hide ValidQuery, IsWindowPage, Matches, AskedFor, Fetches, StrictlySorted;
    RequestIsAcceptedIff(x[0].request, x[0].policy, x[0].now);
    TokensCollectMatching(x);
    var (q, _) := Asked(x[0].request, x[0].policy, x[0].now).value;
    assert forall e :: e in Matching(q, x[0].events) <==> e in x[0].events && AskedFor(x[0].request, x[0].now, e);
  }

  lemma {:induction false} FetchAt(q: Query, x: seq<Exchange>, i: nat)
    requires i < |Fetches(q, x)|
    ensures i < |x| && Fetches(q, x)[i].table == Matching(q, x[i].events)
    decreases |x|
  {
    hide Matching;
    if i > 0 {
      FetchAt(q, x[1..], i - 1);
    }
  }

  /** When nothing is recorded inside the window meanwhile, the pages together are the one-shot sorted listing. */
  lemma {:induction false} UndisturbedPagesAreListing(x: seq<Exchange>, table: set<Event>, listing: seq<Event>)
    requires Conversation(x) && x[0].request.token.None?
    requires var (q, _) := Asked(x[0].request, x[0].policy, x[0].now).value;
      forall i :: 0 <= i < |x| ==> Matching(q, x[i].events) == table
    requires IsListing(Before, table, listing)
    ensures var (q, _) := Asked(x[0].request, x[0].policy, x[0].now).value; AllRows(Fetches(q, x)) == listing
  {
    hide ValidQuery, IsWindowPage, Follows, IsListing, Matching;
    var (q, _) := Asked(x[0].request, x[0].policy, x[0].now).value;
    ConversationFollows(x, q, PageSize(x[0].request), Start);
    BeforeIsStrict();
    FetchesAre(q, x, table);
    PagesAreListing(Before, PageSize(x[0].request), Fetches(q, x), table, listing);
  }

  lemma {:induction false} FetchesAre(q: Query, x: seq<Exchange>, table: set<Event>)
    requires forall i :: 0 <= i < |x| ==> Matching(q, x[i].events) == table
    ensures forall i :: 0 <= i < |Fetches(q, x)| ==> Fetches(q, x)[i].table == table
    decreases |x|
  {
    hide Matching;
    if x != [] {
      FetchesAre(q, x[1..], table);
    }
  }

  /**
   When a token can be followed: the same tenant, policy and page size, before it expires, without filters,
   and with a last row whose time is not 1970's first instant and whose identifier has no control character.
   */
  lemma TokenIsAcceptedIff(x: Exchange, r: Request, policy: string, now: int)
    requires Answers(x.request, x.policy, x.now, x.events, x.answer) && x.answer.next.Some?
    requires Continues(r, x.answer.next.value)
    ensures var last := x.answer.events[|x.answer.events| - 1];
      var (q, claims) := Asked(x.request, x.policy, x.now).value;
      Asked(r, policy, now).Ok? <==>
        && r.occurredAfter.None? && r.occurredBefore.None? && r.eventTypes == [] && r.outcomes == []
        && r.tenantId == q.tenantId && policy == claims.policyRevision && Seconds(now) < claims.expiresAt
        && (r.pageSize == 0 || r.pageSize == PageSize(x.request))
        && last.occurredAt != 0 && last.occurredAt != ZERO_TIME
        && last.eventId != "" && !IsBlank(last.eventId) && |last.eventId| <= 128
        && '\0' !in last.eventId && '\r' !in last.eventId && '\n' !in last.eventId
  {
    var last := x.answer.events[|x.answer.events| - 1];
    assert last in x.answer.events;
  }
}
