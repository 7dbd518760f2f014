/**
 Lexicographic order on strings, and keyset paging: each page is the next stretch of a sorted
 table after the last row of the previous page.
 */
module Keyset {

  // ----- the order of Go strings

  predicate Less(a: string, b: string) {
    if b == "" then false
    else if a == "" then true
    else a[0] < b[0] || (a[0] == b[0] && Less(a[1..], b[1..]))
  }

  lemma {:induction false} LessIsIrreflexive(a: string)
    ensures !Less(a, a)
  {
    if a != "" {
      LessIsIrreflexive(a[1..]);
    }
  }

  lemma {:induction false} LessIsTransitive(a: string, b: string, c: string)
    requires Less(a, b) && Less(b, c)
    ensures Less(a, c)
  {
    if a != "" && a[0] == b[0] && b[0] == c[0] {
      LessIsTransitive(a[1..], b[1..], c[1..]);
    }
  }

  lemma {:induction false} LessIsTotal(a: string, b: string)
    ensures a == b || Less(a, b) || Less(b, a)
  {
    if a != "" && b != "" && a[0] == b[0] {
      LessIsTotal(a[1..], b[1..]);
      assert a == [a[0]] + a[1..] && b == [b[0]] + b[1..];
    }
  }

  // ----- sorted tables

  type Order<!T> = (T, T) -> bool

  ghost predicate StrictOrder<T(!new)>(less: Order<T>) {
    && (forall x :: !less(x, x))
    && (forall x, y, z :: less(x, y) && less(y, z) ==> less(x, z))
  }

  /** Any two rows of the table are ordered. */
  ghost predicate TotalOn<T(!new)>(less: Order<T>, table: set<T>) {
    forall x, y :: x in table && y in table ==> x == y || less(x, y) || less(y, x)
  }

  ghost predicate StrictlySorted<T>(less: Order<T>, rows: seq<T>) {
    forall i, j :: 0 <= i < j < |rows| ==> less(rows[i], rows[j])
  }

  /** The sorted listing of a table: every row once, in order. */
  ghost predicate IsListing<T(!new)>(less: Order<T>, table: set<T>, rows: seq<T>) {
    StrictlySorted(less, rows) && forall x :: x in rows <==> x in table
  }

  datatype Cursor<+T> = Start | After(last: T)

  predicate Past<T>(less: Order<T>, cursor: Cursor<T>, x: T) {
    cursor.Start? || less(cursor.last, x)
  }

  /**
   The page of at most `size` rows after the cursor: in order, taken from the table, ahead of every row
   left behind; full when rows are left.
   */
  ghost predicate IsPage<T(
      !new)>(less: Order<T>, table: set<T>, cursor: Cursor<T>, size: nat, rows: seq<T>, more: bool) {
    && StrictlySorted(less, rows) && |rows| <= size
    && (forall x :: x in rows ==> x in table && Past(less, cursor, x))
    && (forall x, y :: x in table && Past(less, cursor, x) && x !in rows && y in rows ==> less(y, x))
    && (more ==> |rows| == size)
    && (more <==> exists x :: x in table && Past(less, cursor, x) && x !in rows)
  }

  // ----- following the cursor to the end

  datatype Fetch<T> = Fetch(table: set<T>, rows: seq<T>, more: bool)

  function NextCursor<T>(rows: seq<T>): Cursor<T>
    requires rows != []
  {
    After(rows[|rows| - 1])
  }

  /** A client's page requests, each after the last row of the one before, until no more rows are left. */
  ghost predicate Follows<T(!new)>(less: Order<T>, cursor: Cursor<T>, size: nat, fetches: seq<Fetch<T>>)
    decreases |fetches|
  {
    && fetches != [] && size > 0
    && IsPage(less, fetches[0].table, cursor, size, fetches[0].rows, fetches[0].more)
    && (if !fetches[0].more then |fetches| == 1
        else |fetches| > 1 && fetches[0].table <= fetches[1].table
             && Follows(less, NextCursor(fetches[0].rows), size, fetches[1..]))
  }

  function AllRows<T>(fetches: seq<Fetch<T>>): seq<T>
    decreases |fetches|
  {
    if fetches == [] then [] else fetches[0].rows + AllRows(fetches[1..])
  }

  /** What is known of the rows collected from some page on. */
  ghost predicate Collects<T(!new)>(less: Order<T>, cursor: Cursor<T>, first: set<T>, final: set<T>, rows: seq<T>) {
    && StrictlySorted(less, rows)
    && (forall x :: x in rows ==> x in final && Past(less, cursor, x))
    && (forall x :: x in first && Past(less, cursor, x) ==> x in rows)
    && first <= final
  }

  lemma LastPageCollects<T(!new)>(less: Order<T>, cursor: Cursor<T>, table: set<T>, size: nat, rows: seq<T>)
    requires IsPage(less, table, cursor, size, rows, false)
    ensures Collects(less, cursor, table, table, rows)
  {
  }

  lemma JoinPages<T(!new)>(
    less: Order<T>, cursor: Cursor<T>, table: set<T>, size: nat, rows: seq<T>,
    next: set<T>, final: set<T>, tail: seq<T>)
    requires StrictOrder(less) && size > 0 && IsPage(less, table, cursor, size, rows, true) && table <= next
    requires Collects(less, NextCursor(rows), next, final, tail)
    ensures Collects(less, cursor, table, final, rows + tail)
  {
    var last := rows[|rows| - 1];
    assert last in rows;
    forall x | x in tail
      ensures Past(less, cursor, x) && forall i :: 0 <= i < |rows| ==> less(rows[i], x)
    {
      assert less(last, x);
    }
    forall i, j | 0 <= i < j < |rows + tail|
      ensures less((rows + tail)[i], (rows + tail)[j])
    {
      if i < |rows| <= j {
        assert tail[j - |rows|] in tail;
      }
    }
  }

  /**
   Rows may be added while a client pages (never removed): what it gets is strictly in order, so no row
   twice, and holds every row that was there at the first request.
   */
  lemma {:induction false} FollowedPages<T(!new)>(less: Order<T>, cursor: Cursor<T>, size: nat, fetches: seq<Fetch<T>>)
    requires StrictOrder(less) && Follows(less, cursor, size, fetches)
    ensures Collects(less, cursor, fetches[0].table, fetches[|fetches| - 1].table, AllRows(fetches))
    decreases |fetches|
  {
    hide StrictOrder, IsPage, Collects;
    var f, rest := fetches[0], fetches[1..];
    if !f.more {
      LastPageCollects(less, cursor, f.table, size, f.rows);
      assert AllRows(rest) == [];
      assert AllRows(fetches) == f.rows;
    } else {
      NonemptyPage(less, f.table, cursor, size, f.rows);
      FollowedPages(less, NextCursor(f.rows), size, rest);
      JoinPages(less, cursor, f.table, size, f.rows, rest[0].table, fetches[|fetches| - 1].table, AllRows(rest));
    }
  }

  /** Every row that was collected was in the table of one of the requests. */
  lemma {:induction false} FollowedRowsWereThere<T(!new)>(
    less: Order<T>, cursor: Cursor<T>, size: nat, fetches: seq<Fetch<T>>, x: T) returns (i: nat)
    requires Follows(less, cursor, size, fetches) && x in AllRows(fetches)
    ensures i < |fetches| && x in fetches[i].table
    decreases |fetches|
  {
    var rest := fetches[1..];
    assert AllRows(fetches) == fetches[0].rows + AllRows(rest);
    i := 0;
    if x !in fetches[0].rows {
      i := FollowedRowsWereThere(less, NextCursor(fetches[0].rows), size, rest, x);
      i := i + 1;
    }
  }

  lemma NonemptyPage<T(!new)>(less: Order<T>, table: set<T>, cursor: Cursor<T>, size: nat, rows: seq<T>)
    requires size > 0 && IsPage(less, table, cursor, size, rows, true)
    ensures rows != []
  {
  }

  lemma HasMember<T(!new)>(s: seq<T>)
    ensures s == [] || exists x :: x in s
  {
    assert s == [] || s[0] in s;
  }

  /** A table has only one sorted listing. */
  lemma {:induction false} ListingIsUnique<T(!new)>(less: Order<T>, table: set<T>, rows: seq<T>, other: seq<T>)
    requires StrictOrder(less) && IsListing(less, table, rows) && IsListing(less, table, other)
    ensures rows == other
    decreases |rows|
  {
    if rows == [] {
      HasMember(other);
    } else {
      assert rows[0] in table && rows[0] in other;
      assert |other| > 0;
      assert other[0] in table && other[0] in rows;
      assert rows[0] == other[0];
      TailListing(less, table, rows);
      TailListing(less, table, other);
      ListingIsUnique(less, table - {rows[0]}, rows[1..], other[1..]);
      assert rows == [rows[0]] + rows[1..] && other == [other[0]] + other[1..];
    }
  }

  lemma TailListing<T(!new)>(less: Order<T>, table: set<T>, rows: seq<T>)
    requires StrictOrder(less) && IsListing(less, table, rows) && rows != []
    ensures IsListing(less, table - {rows[0]}, rows[1..])
  {
    forall x
      ensures x in rows[1..] <==> x in table - {rows[0]}
    {
      assert x in rows <==> x == rows[0] || x in rows[1..];
    }
  }

  /** Over a table that does not change, the pages together are its sorted listing, for every page size. */
  lemma PagesAreListing<T(!new)>(less: Order<T>, size: nat, fetches: seq<Fetch<T>>, table: set<T>, listing: seq<T>)
    requires StrictOrder(less) && Follows(less, Start, size, fetches)
    requires forall i :: 0 <= i < |fetches| ==> fetches[i].table == table
    requires IsListing(less, table, listing)
    ensures AllRows(fetches) == listing
  {
    FollowedPages(less, Start, size, fetches);
    ListingIsUnique(less, table, AllRows(fetches), listing);
  }

  // ----- paging ends

  /** Page requests over one table that have all reported more rows so far. */
  ghost predicate Continues<T(!new)>(less: Order<T>, table: set<T>, cursor: Cursor<T>, size: nat, pages: seq<seq<T>>)
    decreases |pages|
  {
    size > 0 && (pages != [] ==>
      IsPage(less, table, cursor, size, pages[0], true) && pages[0] != []
      && Continues(less, table, NextCursor(pages[0]), size, pages[1..]))
  }

  ghost function Remaining<T(!new)>(less: Order<T>, table: set<T>, cursor: Cursor<T>): set<T> {
    set x | x in table && Past(less, cursor, x)
  }

  lemma PageConsumes<T(!new)>(less: Order<T>, table: set<T>, cursor: Cursor<T>, size: nat, rows: seq<T>)
    requires StrictOrder(less) && size > 0 && IsPage(less, table, cursor, size, rows, true) && rows != []
    ensures |Remaining(less, table, NextCursor(rows))| + size <= |Remaining(less, table, cursor)|
  {
    var before, after := Remaining(less, table, cursor), Remaining(less, table, NextCursor(rows));
    var page := set x | x in rows;
    DistinctRows(less, rows);
    var last := rows[|rows| - 1];
    assert last in rows;
    assert page <= before && after <= before;
    forall x | x in page
      ensures x !in after
    {
      var i :| 0 <= i < |rows| && rows[i] == x;
      assert !less(last, x);
    }
    assert |page + after| == |page| + |after|;
    SmallerSet(page + after, before);
  }

  lemma SmallerSet<T>(a: set<T>, b: set<T>)
    requires a <= b
    ensures |a| <= |b|
  {
    assert |b - a| == |b| - |a|;
  }

  lemma {:induction false} DistinctRows<T(!new)>(less: Order<T>, rows: seq<T>)
    requires StrictOrder(less) && StrictlySorted(less, rows)
    ensures |(set x | x in rows)| == |rows|
  {
    if rows != [] {
      var front, last := rows[..|rows| - 1], rows[|rows| - 1];
      DistinctRows(less, front);
      assert (set x | x in rows) == (set x | x in front) + {last};
      assert last !in front;
    }
  }

  /** No table can keep a client paging for more requests than it has rows. */
  lemma {:induction false} PagingEnds<T(
      !new)>(less: Order<T>, table: set<T>, cursor: Cursor<T>, size: nat, pages: seq<seq<T>>)
    requires StrictOrder(less) && Continues(less, table, cursor, size, pages)
    ensures |pages| <= |Remaining(less, table, cursor)| <= |table|
    decreases |pages|
  {
    SmallerSet(Remaining(less, table, cursor), table);
    if pages != [] {
      PageConsumes(less, table, cursor, size, pages[0]);
      PagingEnds(less, table, NextCursor(pages[0]), size, pages[1..]);
    }
  }

  // ----- taking the first rows of a table

  lemma {:induction false} FirstRowExists<T(!new)>(less: Order<T>, table: set<T>) returns (first: T)
    requires StrictOrder(less) && TotalOn(less, table) && table != {}
    ensures first in table && forall y :: y in table ==> y == first || less(first, y)
    decreases |table|
  {
    first :| first in table;
    if table != {first} {
      var other := FirstRowExists(less, table - {first});
      if less(other, first) {
        first := other;
      }
    }
  }

  /** ORDER BY … LIMIT: the first rows in order, all of them when the limit is not reached. */
  method FirstRows<T(==, !new)>(less: Order<T>, table: set<T>, limit: nat) returns (rows: seq<T>)
    requires StrictOrder(less) && TotalOn(less, table)
    ensures StrictlySorted(less, rows) && |rows| <= limit
    ensures forall x :: x in rows ==> x in table
    ensures forall x, y :: x in table && x !in rows && y in rows ==> less(y, x)
    ensures |rows| < limit ==> forall x :: x in table ==> x in rows
  {
    rows := [];
    var rest := table;
    while rest != {} && |rows| < limit
      invariant rest <= table && StrictlySorted(less, rows) && |rows| <= limit
      invariant forall x :: x in rows <==> x in table && x !in rest
      invariant forall x, y :: x in rest && y in rows ==> less(y, x)
      decreases rest
    {
      ghost var first := FirstRowExists(less, rest);
      var x :| x in rest && forall y :: y in rest ==> y == x || less(x, y);
      rows, rest := rows + [x], rest - {x};
    }
  }
}
