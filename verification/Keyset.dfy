/** Keyset pagination over documents ordered by creation time and id, newest first
    (platform_document_metadata in backend/apps/knowledge/platform_views.py). A table is the
    set of the documents that match the filters; it may change between pages. */
module Keyset {
  import opened Basics
  import opened Options

  datatype Key = Key(created: int, id: int)

  /** `a` comes before `b` in the listing. */
  predicate Before(a: Key, b: Key) {
    a.created > b.created || (a.created == b.created && a.id > b.id)
  }

  /** The rows after a cursor, as the query filters them. */
  function Below(table: set<Key>, cursor: Option<Key>): set<Key> {
    set k | k in table &&
      (cursor.None? || k.created < cursor.value.created
       || (k.created == cursor.value.created && k.id < cursor.value.id))
  }

  const PAGE_SIZE: nat := 50

  predicate IsFirst(m: Key, t: set<Key>) {
    m in t && forall k :: k in t && k != m ==> Before(m, k)
  }

  lemma FirstExists(t: set<Key>)
    requires t != {}
    ensures exists m :: IsFirst(m, t)
    decreases |t|
  {
    var m :| m in t;
    var rest := t - {m};
    assert forall k :: k in t ==> k == m || k in rest;
    if rest == {} {
      assert IsFirst(m, t);
    } else {
      FirstExists(rest);
      var r :| IsFirst(r, rest);
      assert IsFirst(if Before(r, m) then r else m, t);
    }
  }

  ghost predicate IsListing(s: seq<Key>, t: set<Key>) {
    (forall k :: k in s <==> k in t) && Descending(s) && |s| == |t|
  }

  lemma {:induction false} ListingExists(t: set<Key>)
    ensures exists s :: IsListing(s, t)
    decreases |t|
  {
    if t == {} {
      assert IsListing([], t);
    } else {
      FirstExists(t);
      var m :| IsFirst(m, t);
      ListingExists(t - {m});
      var s :| IsListing(s, t - {m});
      var all := [m] + s;
      assert forall k :: k in all <==> k == m || k in s;
      forall i | 0 <= i < |s| ensures Before(m, s[i]) {
        assert s[i] in s;
      }
      assert |all| == |t - {m}| + 1 == |t|;
      assert Descending(all);
      assert IsListing(all, t);
    }
  }

  /** The table in listing order. */
  ghost function Listing(t: set<Key>): (s: seq<Key>)
    ensures IsListing(s, t)
  {
    ListingExists(t);
    var s :| IsListing(s, t);
    s
  }

  predicate Descending(s: seq<Key>) {
    forall i, j :: 0 <= i < j < |s| ==> Before(s[i], s[j])
  }

  /** The cursor that comes with the page, the first rows of the ordered ones. */
  function CursorOf(rows: seq<Key>): Option<Key> {
    if |rows| > PAGE_SIZE then Some(rows[PAGE_SIZE - 1]) else None
  }

  ghost function PageOf(table: set<Key>, cursor: Option<Key>): seq<Key> {
    Take(Listing(Below(table, cursor)), PAGE_SIZE)
  }

  ghost function NextCursor(table: set<Key>, cursor: Option<Key>): Option<Key> {
    CursorOf(Listing(Below(table, cursor)))
  }

  /** One request; `rows` is what the filtered and ordered query yields. */
  method ListDocuments(rows: seq<Key>) returns (results: seq<Key>, next: Option<Key>)
    ensures results == Take(rows, 50) && next == CursorOf(rows)
    ensures next == if |rows| > 50 then Some(results[49]) else None
  {
    var page := if |rows| > PAGE_SIZE + 1 then rows[..PAGE_SIZE + 1] else rows;
    results := [];
    var i := 0;
    while i < |page| && i < PAGE_SIZE
      invariant 0 <= i <= |page| && i <= PAGE_SIZE && results == page[..i]
    {
      results := results + [page[i]];
      i := i + 1;
    }
    next := if |page| > PAGE_SIZE then Some(page[PAGE_SIZE - 1]) else None;
  }

  /** A client that follows the cursors: page `i` is served from `tables[i]`. */
  ghost function Walk(tables: seq<set<Key>>, cursor: Option<Key>): seq<Key> {
    if tables == [] then []
    else
      PageOf(tables[0], cursor) +
      match NextCursor(tables[0], cursor)
      case None => []
      case Some(k) => Walk(tables[1..], Some(k))
  }

  /** The walk came to a page without a next cursor. */
  ghost predicate Finished(tables: seq<set<Key>>, cursor: Option<Key>) {
    tables != [] &&
    (NextCursor(tables[0], cursor).None? || Finished(tables[1..], NextCursor(tables[0], cursor)))
  }

  predicate After(k: Key, cursor: Option<Key>) {
    cursor.None? || Before(cursor.value, k)
  }

  lemma ConcatDescending(a: seq<Key>, b: seq<Key>, m: Key)
    requires Descending(a) && Descending(b)
    requires forall i :: 0 <= i < |a| ==> a[i] == m || Before(a[i], m)
    requires forall i :: 0 <= i < |b| ==> Before(m, b[i])
    ensures Descending(a + b)
  {
  }

  lemma PageEndsAtCursor(rows: seq<Key>)
    requires Descending(rows) && CursorOf(rows).Some?
    ensures var m := CursorOf(rows).value;
            && m in Take(rows, PAGE_SIZE) && Descending(Take(rows, PAGE_SIZE))
            && forall i :: 0 <= i < |Take(rows, PAGE_SIZE)| ==>
                 Take(rows, PAGE_SIZE)[i] == m || Before(Take(rows, PAGE_SIZE)[i], m)
  {
    assert Take(rows, PAGE_SIZE)[PAGE_SIZE - 1] == CursorOf(rows).value;
  }

  predicate InSome(k: Key, tables: seq<set<Key>>) {
    exists i :: 0 <= i < |tables| && k in tables[i]
  }

  /** Whatever is inserted or deleted between pages, the walk is strictly descending, so no
      row is returned twice, and each returned row was in the table of some page. */
  lemma {:induction false} WalkDescends(tables: seq<set<Key>>, cursor: Option<Key>)
    ensures Descending(Walk(tables, cursor))
    ensures forall k :: k in Walk(tables, cursor) ==> After(k, cursor) && InSome(k, tables)
  {
    if tables != [] {
      var rows := Listing(Below(tables[0], cursor));
      var page := Take(rows, PAGE_SIZE);
      forall k | k in page ensures After(k, cursor) && k in tables[0] {
        assert k in rows;
      }
      if CursorOf(rows).Some? {
        var m := CursorOf(rows).value;
        WalkDescends(tables[1..], Some(m));
        var rest := Walk(tables[1..], Some(m));
        PageEndsAtCursor(rows);
        forall i | 0 <= i < |rest| ensures Before(m, rest[i]) {
          assert rest[i] in rest;
        }
        ConcatDescending(page, rest, m);
        forall k | k in rest ensures After(k, cursor) && InSome(k, tables) {
          assert After(m, cursor) && After(k, Some(m));
          var i :| 0 <= i < |tables[1..]| && k in tables[1..][i];
          assert k in tables[i + 1];
        }
      }
    }
  }

  /** A row that is in the table at every page is returned. */
  lemma {:induction false} WalkIsComplete(tables: seq<set<Key>>, cursor: Option<Key>, k: Key)
    requires Finished(tables, cursor)
    requires After(k, cursor) && forall t :: t in tables ==> k in t
    ensures k in Walk(tables, cursor)
  {
    var rows := Listing(Below(tables[0], cursor));
    assert k in rows;
    var i :| 0 <= i < |rows| && rows[i] == k;
    if i >= PAGE_SIZE {
      var next := NextCursor(tables[0], cursor);
      assert Before(rows[PAGE_SIZE - 1], rows[i]);
      assert forall t :: t in tables[1..] ==> t in tables;
      WalkIsComplete(tables[1..], next, k);
    }
  }

  /** Following the cursors to the end returns every row present throughout exactly once, in
      listing order, under any inserts and deletes in between. */
  lemma {:induction false} PaginationIsComplete(tables: seq<set<Key>>, k: Key)
    requires Finished(tables, None) && forall t :: t in tables ==> k in t
    ensures Once(Walk(tables, None), k) && Descending(Walk(tables, None))
  {
    WalkDescends(tables, None);
    WalkIsComplete(tables, None, k);
    DescendingHasOnce(Walk(tables, None), k);
  }

  predicate Once(s: seq<Key>, k: Key) {
    exists i :: 0 <= i < |s| && s[i] == k && forall j :: 0 <= j < |s| && s[j] == k ==> j == i
  }

  lemma DescendingHasOnce(s: seq<Key>, k: Key)
    requires Descending(s) && k in s
    ensures Once(s, k)
  {
    var i :| 0 <= i < |s| && s[i] == k;
    assert forall a, b :: 0 <= a < b < |s| ==> s[a] != s[b];
  }

  // ---------- a table that does not change ----------

  lemma {:induction false} DescendingIsUnique(a: seq<Key>, b: seq<Key>)
    requires Descending(a) && Descending(b) && forall k :: k in a <==> k in b
    ensures a == b
  {
    assert b == [] || b[0] in b;
    if a != [] {
      assert a[0] in a;
      assert b != [];
      assert b[0] in b;
      assert a[0] == b[0];
      var x, y := a[1..], b[1..];
      forall k ensures k in x <==> k in y {
        assert k in a <==> k == a[0] || k in x;
        assert k in b <==> k == b[0] || k in y;
        assert a[0] !in x && b[0] !in y;
      }
      DescendingIsUnique(x, y);
      assert a == [a[0]] + x && b == [b[0]] + y;
    }
  }

  lemma TailIsAfter(rows: seq<Key>, p: nat, k: Key)
    requires Descending(rows) && 0 < p <= |rows|
    ensures k in rows[p..] <==> k in rows && Before(rows[p - 1], k)
  {
    assert forall i :: 0 <= i < p - 1 ==> Before(rows[i], rows[p - 1]);
    if k in rows && Before(rows[p - 1], k) {
      var i :| 0 <= i < |rows| && rows[i] == k;
      assert rows[p..][i - p] == k;
    }
    if k in rows[p..] {
      var i :| 0 <= i < |rows[p..]| && rows[p..][i] == k;
      assert rows[p + i] == k && Before(rows[p - 1], rows[p + i]);
    }
  }

  /** The rows below the cursor of a page are those the page left out. */
  lemma RestIsBelow(table: set<Key>, cursor: Option<Key>, rows: seq<Key>, k: Key)
    requires rows == Listing(Below(table, cursor)) && CursorOf(rows).Some?
    ensures k in rows[PAGE_SIZE..] <==> k in Below(table, CursorOf(rows))
  {
    var last := CursorOf(rows).value;
    assert last in rows;
    assert k in Below(table, Some(last)) <==> k in Below(table, cursor) && Before(last, k);
    TailIsAfter(rows, PAGE_SIZE, k);
  }

  /** The next page continues where this one stopped. */
  lemma {:induction false} BelowNext(table: set<Key>, cursor: Option<Key>)
    requires NextCursor(table, cursor).Some?
    ensures Listing(Below(table, NextCursor(table, cursor))) == Listing(Below(table, cursor))[PAGE_SIZE..]
    ensures |Below(table, NextCursor(table, cursor))| == |Below(table, cursor)| - PAGE_SIZE
  {
    var rows := Listing(Below(table, cursor));
    forall k ensures k in rows[PAGE_SIZE..] <==> k in Below(table, CursorOf(rows)) {
      RestIsBelow(table, cursor, rows, k);
    }
    DescendingIsUnique(rows[PAGE_SIZE..], Listing(Below(table, CursorOf(rows))));
  }

  /** On a fixed table the walk ends after one page for every 50 rows and returns exactly the
      listing. */
  lemma {:induction false} FixedTableTerminates(table: set<Key>, cursor: Option<Key>, tables: seq<set<Key>>)
    requires tables != [] && forall i :: 0 <= i < |tables| ==> tables[i] == table
    requires |tables| * PAGE_SIZE >= |Below(table, cursor)|
    ensures Finished(tables, cursor)
    ensures Walk(tables, cursor) == Listing(Below(table, cursor))
    decreases |tables|
  {
    var rows := Listing(Below(table, cursor));
    if CursorOf(rows).Some? {
      BelowNext(table, cursor);
      FixedTableTerminates(table, CursorOf(rows), tables[1..]);
      Rejoin(rows, PAGE_SIZE);
    }
  }

  lemma Rejoin(rows: seq<Key>, p: nat)
    requires p <= |rows|
    ensures rows[..p] + rows[p..] == rows
  {
  }
}
