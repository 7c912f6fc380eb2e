/** The reconciliation walk over source streams (listStreams with an after cursor, src/domain/source-streams.ts). */
module Keyset {
  import opened Wrappers
  import opened Text

  /** One stream as the walk sees it; external ids are unique in a space and never empty. */
  datatype Row = Row(ext: string, live: bool)

  predicate Table(rows: seq<Row>) {
    && (forall i :: 0 <= i < |rows| ==> rows[i].ext != "")
    && forall i, j :: 0 <= i < j < |rows| ==> rows[i].ext != rows[j].ext
  }

  predicate Selected(row: Row, after: string, includeDeleted: bool) {
    Before(after, row.ext) && (includeDeleted || row.live)
  }

  /** The ids the query matches, in table order. */
  function Matching(rows: seq<Row>, after: string, includeDeleted: bool): seq<string> {
    if rows == [] then []
    else
      var rest := Matching(rows[..|rows| - 1], after, includeDeleted);
      if Selected(rows[|rows| - 1], after, includeDeleted) then rest + [rows[|rows| - 1].ext] else rest
  }

  predicate Listed(rows: seq<Row>, after: string, includeDeleted: bool, ext: string) {
    exists i :: 0 <= i < |rows| && rows[i].ext == ext && Selected(rows[i], after, includeDeleted)
  }

  /** Which streams the walk is about: those after the cursor, tombstoned ones only when asked for. */
  lemma ListedIs(rows: seq<Row>, after: string, includeDeleted: bool, ext: string)
    ensures Listed(rows, after, includeDeleted, ext) <==>
      Before(after, ext) && (Row(ext, true) in rows || (includeDeleted && Row(ext, false) in rows))
  {
    if i :| 0 <= i < |rows| && rows[i].ext == ext && Selected(rows[i], after, includeDeleted) {
      assert rows[i] == Row(ext, rows[i].live) && rows[i] in rows;
    }
  }

  lemma {:induction false} MatchingIsFilter(rows: seq<Row>, after: string, includeDeleted: bool)
    requires Table(rows)
    ensures NoRepeats(Matching(rows, after, includeDeleted))
    ensures forall ext :: ext in Matching(rows, after, includeDeleted) <==> Listed(rows, after, includeDeleted, ext)
    decreases |rows|
  {
    if rows != [] {
      var init := rows[..|rows| - 1];
      MatchingIsFilter(init, after, includeDeleted);
      var rest, last := Matching(init, after, includeDeleted), rows[|rows| - 1].ext;
      assert last !in rest;
      assert NoRepeats(rest + [last]) by { assert forall i :: 0 <= i < |rest| ==> rest[i] in rest; }
      forall ext ensures Listed(rows, after, includeDeleted, ext)
        <==> Listed(init, after, includeDeleted,
          ext) || (ext == rows[|rows| - 1].ext && Selected(rows[|rows| - 1], after, includeDeleted)) {
        if i :| 0 <= i < |init| && init[i].ext == ext && Selected(init[i], after, includeDeleted) {
          assert rows[i] == init[i];
        }
      }
    }
  }

  datatype Page = Page(items: seq<string>, next: Option<string>)

  /** ORDER BY external_source_id LIMIT limit + 1; the extra row only tells that there is a next page. */
  function ListAfter(rows: seq<Row>, after: string, includeDeleted: bool, limit: nat): Page
    requires limit > 0
  {
    var sorted := Sort(Matching(rows, after, includeDeleted));
    var fetched := if |sorted| > limit + 1 then sorted[..limit + 1] else sorted;
    var items := if |fetched| > limit then fetched[..limit] else fetched;
    Page(items, if |fetched| > limit then Some(items[|items| - 1]) else None)
  }

  /**
   * A walk: page i is read from the table as it is at that moment, from where page
   * i - 1 ended, until a page has no next cursor. The table may change between pages.
   */
  ghost predicate Walk(tables: seq<seq<Row>>, cursors: seq<string>, pages: seq<Page>, includeDeleted: bool, limit: nat)
    requires limit > 0
  {
    && |tables| == |pages| && |cursors| == |pages| + 1 && pages != [] && cursors[0] == ""
    && (forall i :: 0 <= i < |pages| ==>
      Table(tables[i]) && pages[i] == ListAfter(tables[i], cursors[i], includeDeleted, limit))
    && (forall i :: 0 <= i < |pages| - 1 ==> pages[i].next == Some(cursors[i + 1]))
    && pages[|pages| - 1].next.None?
  }

  /** Where an id stands relative to one page. */
  lemma PageCovers(rows: seq<Row>, after: string, includeDeleted: bool, limit: nat, ext: string)
    requires limit > 0 && Table(rows)
    ensures var p := ListAfter(rows, after, includeDeleted, limit);
      && Ascending(p.items)
      && (ext in p.items ==> Listed(rows, after, includeDeleted, ext) && (p.next.Some? ==> !Before(p.next.value, ext)))
      && (Listed(rows, after, includeDeleted, ext) && ext !in p.items ==> p.next.Some? && Before(p.next.value, ext))
      && (p.next.Some? ==> Before(after, p.next.value))
  {
    MatchingIsFilter(rows, after, includeDeleted);
    SortAscends(Matching(rows, after, includeDeleted));
    var sorted := Sort(Matching(rows, after, includeDeleted));
    var p := ListAfter(rows, after, includeDeleted, limit);
    assert p.items <= sorted;
    if ext in p.items {
      var k :| 0 <= k < |p.items| && p.items[k] == ext;
      assert sorted[k] == ext;
      if p.next.Some? {
        BeforeIsTotal(ext, p.next.value);
        assert k < |p.items| - 1 ==> Before(sorted[k], sorted[|p.items| - 1]);
      }
    }
    if Listed(rows, after, includeDeleted, ext) && ext !in p.items {
      var k :| 0 <= k < |sorted| && sorted[k] == ext;
      assert Before(sorted[|p.items| - 1], sorted[k]);
    }
    if p.next.Some? {
      assert p.next.value in sorted;
      assert Listed(rows, after, includeDeleted, p.next.value);
    }
  }

  /** A page has at most limit ids, and the cursor of a page that is not the last is its last id. */
  lemma PageIsFull(rows: seq<Row>, after: string, includeDeleted: bool, limit: nat)
    requires limit > 0
    ensures var p := ListAfter(rows, after, includeDeleted, limit);
      && |p.items| <= limit && (p.next.Some? ==> |p.items| == limit && p.next.value == p.items[limit - 1])
  {
  }

  lemma NextIsAfter(tables: seq<seq<Row>>, cursors: seq<string>, pages: seq<Page>, includeDeleted: bool, limit: nat,
    i: nat)
    requires limit > 0 && Walk(tables, cursors, pages, includeDeleted, limit) && i < |pages| - 1
    ensures Before(cursors[i], cursors[i + 1])
  {
    PageCovers(tables[i], cursors[i], includeDeleted, limit, "");
    assert pages[i].next == Some(cursors[i + 1]);
  }

  lemma CursorsAscend(tables: seq<seq<Row>>, cursors: seq<string>, pages: seq<Page>, includeDeleted: bool, limit: nat,
    i: nat, j: nat)
    requires limit > 0 && Walk(tables, cursors, pages, includeDeleted, limit) && i < j < |pages|
    ensures Before(cursors[i], cursors[j])
  {
    forall n: nat | n < |pages| - 1 ensures Before(cursors[n], cursors[n + 1]) {
      NextIsAfter(tables, cursors, pages, includeDeleted, limit, n);
    }
    StepsAscend(cursors[..|pages|], i, j);
  }

  lemma {:induction false} StepsAscend(s: seq<string>, i: nat, j: nat)
    requires i < j < |s| && forall n: nat :: n < |s| - 1 ==> Before(s[n], s[n + 1])
    ensures Before(s[i], s[j])
    decreases j
  {
    if i < j - 1 {
      StepsAscend(s, i, j - 1);
      BeforeIsTransitive(s[i], s[j - 1], s[j]);
    }
  }

  /**
   * No id is delivered twice, however the table changes during the walk: later pages are strictly above
   * earlier ones.
   */
  lemma NothingTwice(tables: seq<seq<Row>>, cursors: seq<string>, pages: seq<Page>, includeDeleted: bool, limit: nat,
    i: nat, j: nat, a: string, b: string)
    requires limit > 0 && Walk(tables, cursors, pages, includeDeleted, limit) && i < j < |pages|
    requires a in pages[i].items && b in pages[j].items
    ensures Before(a, b)
  {
    PageCovers(tables[i], cursors[i], includeDeleted, limit, a);
    PageCovers(tables[j], cursors[j], includeDeleted, limit, b);
    assert pages[i].next == Some(cursors[i + 1]);
    BeforeIsTotal(a, cursors[i + 1]);
    if i + 1 < j {
      CursorsAscend(tables, cursors, pages, includeDeleted, limit, i + 1, j);
      if a != cursors[i + 1] { BeforeIsTransitive(a, cursors[i + 1], cursors[j]); }
      BeforeIsTransitive(a, cursors[j], b);
    } else if a != cursors[j] {
      BeforeIsTransitive(a, cursors[j], b);
    }
  }

  predicate AlwaysListed(tables: seq<seq<Row>>, includeDeleted: bool, ext: string) {
    forall i :: 0 <= i < |tables| ==> Listed(tables[i], "", includeDeleted, ext)
  }

  /** An id not yet passed is on this page, or still not passed by the next. */
  lemma OnPageOrAhead(tables: seq<seq<Row>>, cursors: seq<string>, pages: seq<Page>, includeDeleted: bool, limit: nat,
    ext: string, i: nat)
    requires limit > 0 && Walk(tables, cursors, pages, includeDeleted, limit) && i < |pages|
    requires Listed(tables[i], "", includeDeleted, ext) && Before(cursors[i], ext)
    ensures ext in pages[i].items || (i < |pages| - 1 && Before(cursors[i + 1], ext))
  {
    var r :| 0 <= r < |tables[i]| && tables[i][r].ext == ext && Selected(tables[i][r], "", includeDeleted);
    assert Selected(tables[i][r], cursors[i], includeDeleted);
    PageCovers(tables[i], cursors[i], includeDeleted, limit, ext);
    assert i < |pages| - 1 ==> pages[i].next == Some(cursors[i + 1]);
  }

  lemma {:induction false} NotYetPassed(tables: seq<seq<Row>>, cursors: seq<string>, pages: seq<Page>,
    includeDeleted: bool, limit: nat, ext: string, i: nat) returns (k: nat)
    requires limit > 0 && Walk(tables, cursors, pages, includeDeleted, limit) && i < |pages|
    requires AlwaysListed(tables, includeDeleted, ext) && Before(cursors[i], ext)
    ensures i <= k < |pages| && ext in pages[k].items
    decreases |pages| - i
  {
    assert Listed(tables[i], "", includeDeleted, ext);
    OnPageOrAhead(tables, cursors, pages, includeDeleted, limit, ext, i);
    if ext in pages[i].items {
      k := i;
    } else {
      k := NotYetPassed(tables, cursors, pages, includeDeleted, limit, ext, i + 1);
    }
  }

  /** Nothing is missed: an id that matches throughout the walk is on one of its pages. */
  lemma NothingMissed(tables: seq<seq<Row>>, cursors: seq<string>, pages: seq<Page>, includeDeleted: bool, limit: nat,
    ext: string) returns (k: nat)
    requires limit > 0 && Walk(tables, cursors, pages, includeDeleted, limit)
      && AlwaysListed(tables, includeDeleted, ext)
    ensures k < |pages| && ext in pages[k].items
  {
    assert Listed(tables[0], "", includeDeleted, ext);
    k := NotYetPassed(tables, cursors, pages, includeDeleted, limit, ext, 0);
  }
}
