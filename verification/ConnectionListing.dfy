/** Listing a tenant's connections page by page (control-plane/connection/memory/repository.go, List). */
module ConnectionListing {
  import opened Outcomes
  import opened Connections
  import opened ConnectionStore
  import opened ConnectionInvariants
  import opened ConnectionRepository
  import opened Keyset

  const MAXIMUM_LIST_LIMIT := 101

  /** An empty connector or no state means any. */
  datatype Filter = Filter(
    connector: string, state: Option<ConnectionState>, afterName: string, afterUid: string, limit: int)

  datatype Page = Page(rows: seq<Connection>, more: bool)

  // ----- the order of the listing

  predicate Ahead(a: Connection, b: Connection) {
    Less(a.name, b.name) || (a.name == b.name && Less(a.uid, b.uid))
  }

  lemma AheadIsStrict()
    ensures StrictOrder(Ahead)
  {
    forall x: Connection
      ensures !Ahead(x, x)
    {
      LessIsIrreflexive(x.name);
      LessIsIrreflexive(x.uid);
    }
    forall x: Connection, y: Connection, z: Connection | Ahead(x, y) && Ahead(y, z)
      ensures Ahead(x, z)
    {
      LessIsIrreflexive(x.name);
      if x.name == y.name == z.name {
        LessIsTransitive(x.uid, y.uid, z.uid);
      } else if x.name != y.name && y.name != z.name {
        LessIsTransitive(x.name, y.name, z.name);
      }
    }
  }

  // ----- what a listing is about

  predicate Matches(c: Connection, tenantId: string, connector: string, state: Option<ConnectionState>) {
    c.tenantId == tenantId && (connector != "" ==> c.connector == connector) && (state.Some? ==> c.state == state.value)
  }

  function Table(connections: map<string, Connection>, tenantId: string, connector: string,
      state: Option<ConnectionState>): set<Connection> {
    set key | key in connections && Matches(connections[key], tenantId, connector, state) :: connections[key]
  }

  /** Listed are the stored connections of the tenant, of the connector and in the state asked for, if any. */
  lemma ListedIff(connections: map<string, Connection>, tenantId: string, connector: string,
      state: Option<ConnectionState>, c: Connection)
    ensures c in Table(connections, tenantId, connector, state) <==>
      && (exists key :: key in connections && connections[key] == c) && c.tenantId == tenantId
      && (connector == "" || c.connector == connector) && (state == None || state == Some(c.state))
  {
  }

  /** In the order of the listing names ascend, and among equal names the identifiers. */
  lemma ListedByName(rows: seq<Connection>, i: nat, j: nat)
    requires StrictlySorted(Ahead, rows) && i < j < |rows|
    ensures Less(rows[i].name, rows[j].name) || rows[i].name == rows[j].name
    ensures rows[i].name == rows[j].name ==> Less(rows[i].uid, rows[j].uid)
  {
    LessIsIrreflexive(rows[i].name);
  }

  /** Names are unique in a tenant and not empty. */
  lemma TableIsOrdered(connections: map<string, Connection>, uidIndex: map<string, string>, tenantId: string,
      connector: string, state: Option<ConnectionState>)
    requires Indexed(connections, uidIndex)
    ensures TotalOn(Ahead, Table(connections, tenantId, connector, state))
    ensures forall c :: c in Table(connections, tenantId, connector, state) ==> c.name != ""
  {
    hide ResourceKey, Generation.Valid;
    var table := Table(connections, tenantId, connector, state);
    forall x, y | x in table && y in table
      ensures x == y || Ahead(x, y) || Ahead(y, x)
    {
      LessIsTotal(x.name, y.name);
      assert x.tenantId == y.tenantId;
    }
  }

  /** Where a request takes up: at the start, or behind the row it names. */
  predicate Resumes(f: Filter, cursor: Cursor<Connection>) {
    match cursor
    case Start => f.afterName == "" && f.afterUid == ""
    case After(last) => f.afterName == last.name && f.afterUid == last.uid
  }

  predicate Skipped(f: Filter, c: Connection) {
    Less(c.name, f.afterName) || (c.name == f.afterName && (Less(c.uid, f.afterUid) || c.uid == f.afterUid))
  }

  lemma SkippedIsNotPast(f: Filter, cursor: Cursor<Connection>, c: Connection)
    requires Resumes(f, cursor) && c.name != ""
    ensures Skipped(f, c) <==> !Past(Ahead, cursor, c)
  {
    LessIsTotal(c.name, f.afterName);
    LessIsTotal(c.uid, f.afterUid);
    if Less(c.name, f.afterName) && Less(f.afterName, c.name) {
      LessIsTransitive(c.name, f.afterName, c.name);
    }
    if Less(c.uid, f.afterUid) && Less(f.afterUid, c.uid) {
      LessIsTransitive(c.uid, f.afterUid, c.uid);
    }
    LessIsIrreflexive(c.name);
    LessIsIrreflexive(c.uid);
  }

  /** The first rows of what is past the cursor make the page. */
  lemma FirstRowsArePage(
      table: set<Connection>, cursor: Cursor<Connection>, values: set<Connection>, size: nat, rows: seq<Connection>)
    requires StrictOrder(Ahead) && forall x :: x in values <==> x in table && Past(Ahead, cursor, x)
    requires StrictlySorted(Ahead, rows) && |rows| <= size && forall x :: x in rows ==> x in values
    requires forall x, y :: x in values && x !in rows && y in rows ==> Ahead(y, x)
    requires |rows| < size ==> forall x :: x in values ==> x in rows
    ensures IsPage(Ahead, table, cursor, size, rows, |values| > size)
  {
    DistinctRows(Ahead, rows);
    var listed := set x | x in rows;
    assert listed <= values;
    SmallerSet(listed, values);
    if |values| > size {
      assert |values - listed| == |values| - |listed|;
      var x :| x in values - listed;
      assert x in table && Past(Ahead, cursor, x) && x !in rows;
    } else if |rows| == size {
      assert |values - listed| == 0;
      assert values - listed == {};
    }
  }

  predicate Chosen(c: Connection, tenantId: string, f: Filter) {
    Matches(c, tenantId, f.connector, f.state) && !Skipped(f, c)
  }

  /** The connections a request is about, behind its cursor. */
  method Select(repository: Repository, tenantId: string, f: Filter) returns (values: set<Connection>)
    ensures forall x :: x in values <==>
      x in Table(repository.connections, tenantId, f.connector, f.state) && !Skipped(f, x)
  {
    values := {};
    var connections := repository.connections;
    var rest := connections.Keys;
    while rest != {}
      invariant rest <= connections.Keys
      invariant forall key :: key in connections && key !in rest && Chosen(connections[key], tenantId, f) ==>
        connections[key] in values
      invariant forall x :: x in values ==> x in Table(connections, tenantId, f.connector, f.state) && !Skipped(f, x)
      decreases rest
    {
      hide Matches, Skipped;
      var key :| key in rest;
      var stored := connections[key];
      if Matches(stored, tenantId, f.connector, f.state) && !Skipped(f, stored) {
        values := values + {stored};
      }
      rest := rest - {key};
    }
    hide Matches, Skipped;
  }

  lemma SelectedIsPage(
      table: set<Connection>, f: Filter, cursor: Cursor<Connection>, values: set<Connection>, rows: seq<Connection>)
    requires StrictOrder(Ahead) && Resumes(f, cursor) && 0 < f.limit && forall c :: c in table ==> c.name != ""
    requires forall x :: x in values <==> x in table && !Skipped(f, x)
    requires StrictlySorted(Ahead, rows) && |rows| <= f.limit && forall x :: x in rows ==> x in values
    requires forall x, y :: x in values && x !in rows && y in rows ==> Ahead(y, x)
    requires |rows| < f.limit ==> forall x :: x in values ==> x in rows
    ensures IsPage(Ahead, table, cursor, f.limit, rows, |values| > f.limit)
  {
    hide Skipped, StrictOrder, Resumes, IsPage, StrictlySorted;
    forall x | x in table
      ensures Skipped(f, x) <==> !Past(Ahead, cursor, x)
    {
      SkippedIsNotPast(f, cursor, x);
    }
    hide Past;
    FirstRowsArePage(table, cursor, values, f.limit, rows);
  }

  /** One request. */
  method List(repository: Repository, tenantId: string, f: Filter) returns (r: Result<Page>)
    requires Indexed(repository.connections, repository.uidIndex)
    ensures r.Ok? <==> 1 <= f.limit <= 101
    ensures r.Ok? ==> forall cursor :: Resumes(f, cursor) ==>
      IsPage(Ahead, Table(repository.connections, tenantId, f.connector, f.state),
             cursor, f.limit, r.value.rows, r.value.more)
  {
    if f.limit <= 0 || f.limit > MAXIMUM_LIST_LIMIT {
      return Err(Invalid);
    }
    hide Indexed, Table, Skipped, StrictOrder, TotalOn, IsPage, Resumes, StrictlySorted, Ahead;
    ghost var table := Table(repository.connections, tenantId, f.connector, f.state);
    AheadIsStrict();
    TableIsOrdered(repository.connections, repository.uidIndex, tenantId, f.connector, f.state);
    var values := Select(repository, tenantId, f);
    assert TotalOn(Ahead, values) by {
      TotalOnPart(table, values);
    }
    var rows := FirstRows(Ahead, values, f.limit);
    forall cursor | Resumes(f, cursor)
      ensures IsPage(Ahead, table, cursor, f.limit, rows, |values| > f.limit)
    {
      SelectedIsPage(table, f, cursor, values, rows);
    }
    return Ok(Page(rows, |values| > f.limit));
  }

  lemma TotalOnPart(table: set<Connection>, values: set<Connection>)
    requires TotalOn(Ahead, table) && forall x :: x in values ==> x in table
    ensures TotalOn(Ahead, values)
  {
  }

  // ----- following the pages

  /** What has been collected is everything up to the cursor, in order. */
  ghost predicate CollectedTo(table: set<Connection>, cursor: Cursor<Connection>, rows: seq<Connection>) {
    && StrictlySorted(Ahead, rows)
    && (forall x :: x in rows <==> x in table && !Past(Ahead, cursor, x))
  }

  lemma PageCollects(
      table: set<Connection>, cursor: Cursor<Connection>, size: nat, all: seq<Connection>, rows: seq<Connection>,
      more: bool)
    requires StrictOrder(Ahead) && size > 0 && CollectedTo(table, cursor, all)
    requires IsPage(Ahead, table, cursor, size, rows, more)
    requires cursor.After? ==> cursor.last in all
    ensures !more ==> IsListing(Ahead, table, all + rows)
    ensures more ==> rows != [] && CollectedTo(table, NextCursor(rows), all + rows)
  {
    SortedTogether(table, cursor, size, all, rows, more);
    if more {
      var last := rows[|rows| - 1];
      assert last in rows;
      forall x
        ensures x in all + rows <==> x in table && !Ahead(last, x)
      {
        if x in all {
          assert !Ahead(last, x) by {
            EarlierIsNotAhead(cursor, last, x);
          }
        } else if x in rows {
          var i :| 0 <= i < |rows| && rows[i] == x;
          assert !Ahead(last, x);
        }
      }
    }
  }

  /** What was collected before is not behind a later row. */
  lemma EarlierIsNotAhead(cursor: Cursor<Connection>, row: Connection, x: Connection)
    requires StrictOrder(Ahead) && Past(Ahead, cursor, row) && !Past(Ahead, cursor, x)
    ensures !Ahead(row, x)
  {
  }

  lemma SortedTogether(table: set<Connection>, cursor: Cursor<Connection>, size: nat, all: seq<Connection>,
      rows: seq<Connection>, more: bool)
    requires StrictOrder(Ahead) && CollectedTo(table, cursor, all) && IsPage(Ahead, table, cursor, size, rows, more)
    requires cursor.After? ==> cursor.last in all
    ensures StrictlySorted(Ahead, all + rows)
  {
    forall i, j | 0 <= i < |all| && 0 <= j < |rows|
      ensures Ahead(all[i], rows[j])
    {
      assert all[i] in all && rows[j] in rows;
      if all[i] != cursor.last {
        var k :| 0 <= k < |all| && all[k] == cursor.last;
        assert !Ahead(cursor.last, all[i]);
      }
    }
  }

  /**
   A client that asks for page after page, each behind the last row of the one before, is done after
   finitely many requests and has the whole listing, every connection once and in order.
   */
  method ListAll(
      repository: Repository, tenantId: string, connector: string, state: Option<ConnectionState>, limit: int)
      returns (all: seq<Connection>)
    requires Indexed(repository.connections, repository.uidIndex) && 0 < limit <= MAXIMUM_LIST_LIMIT
    ensures IsListing(Ahead, Table(repository.connections, tenantId, connector, state), all)
  {
    ghost var table := Table(repository.connections, tenantId, connector, state);
    ghost var cursor: Cursor<Connection> := Start;
    AheadIsStrict();
    hide Indexed, Table, IsPage, StrictOrder, Remaining;
    var f := Filter(connector, state, "", "", limit);
    all := [];
    while true
      invariant Resumes(f, cursor) && f.connector == connector && f.state == state && f.limit == limit
      invariant CollectedTo(table, cursor, all) && (cursor.After? ==> cursor.last in all)
      decreases |Remaining(Ahead, table, cursor)|
    {
      hide CollectedTo;
      var page := List(repository, tenantId, f);
      assert IsPage(Ahead, table, cursor, limit, page.value.rows, page.value.more);
      PageCollects(table, cursor, limit, all, page.value.rows, page.value.more);
      all := all + page.value.rows;
      if !page.value.more {
        return;
      }
      PageConsumes(Ahead, table, cursor, limit, page.value.rows);
      var last := page.value.rows[|page.value.rows| - 1];
      f := f.(afterName := last.name, afterUid := last.uid);
      cursor := After(last);
    }
  }
}
