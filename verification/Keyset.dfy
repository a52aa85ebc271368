/** Tables in key order and the keyset pages that are read from them. A value is modelled by
    its rank in its column's sort order, so comparing keys is comparing ranks. */
module Keyset {
  import opened Ordering
  import opened Wrappers

  type Row = seq<int>
  type Key = seq<int>

  /** Key columns as positions in the row. */
  type KeyColumns = seq<nat>

  predicate Fits(row: Row, cols: KeyColumns) {
    forall i :: 0 <= i < |cols| ==> cols[i] < |row|
  }

  function KeyOf(row: Row, cols: KeyColumns): (k: Key)
    requires Fits(row, cols)
    ensures |k| == |cols|
  {
    seq(|cols|, i requires 0 <= i < |cols| => row[cols[i]])
  }

  predicate AllFit(rows: seq<Row>, cols: KeyColumns) {
    forall i {:trigger Fits(rows[i], cols)} :: 0 <= i < |rows| ==> Fits(rows[i], cols)
  }

  /** (key columns) > (cursor), where no cursor means no condition. */
  predicate Beyond(row: Row, cols: KeyColumns, cursor: Option<Key>) {
    Fits(row, cols) && (cursor.Some? ==> LexLess(cursor.value, KeyOf(row, cols)))
  }

  /** The rows in the order of a unique key. */
  ghost predicate KeyOrdered(rows: seq<Row>, cols: KeyColumns) {
    && AllFit(rows, cols)
    && forall i, j {:trigger Beyond(rows[j], cols, Some(KeyOf(rows[i], cols)))} ::
         0 <= i < j < |rows| ==> Fits(rows[i], cols) && Beyond(rows[j], cols, Some(KeyOf(rows[i], cols)))
  }

  /** Every row beyond the cursor, in the given order. */
  function AboveCursor(rows: seq<Row>, cols: KeyColumns, cursor: Option<Key>): seq<Row> {
    if rows == [] then []
    else (if Beyond(rows[0], cols, cursor) then [rows[0]] else []) + AboveCursor(rows[1..], cols, cursor)
  }

  function Take<T>(items: seq<T>, n: nat): seq<T> {
    if n <= |items| then items[..n] else items
  }

  /** SELECT ... WHERE (key) > (cursor) ORDER BY key LIMIT n, on rows given in key order. */
  function FetchPage(rows: seq<Row>, cols: KeyColumns, cursor: Option<Key>, n: nat): seq<Row> {
    Take(AboveCursor(rows, cols, cursor), n)
  }

  lemma OrderedTail(rows: seq<Row>, cols: KeyColumns)
    requires KeyOrdered(rows, cols) && rows != []
    ensures KeyOrdered(rows[1..], cols) && Fits(rows[0], cols)
  {
    assert forall i :: 0 <= i < |rows[1..]| ==> rows[1..][i] == rows[i + 1] && Fits(rows[i + 1], cols);
    forall i, j | 0 <= i < j < |rows[1..]|
      ensures Beyond(rows[1..][j], cols, Some(KeyOf(rows[1..][i], cols)))
    {
      assert Beyond(rows[j + 1], cols, Some(KeyOf(rows[i + 1], cols)));
    }
  }

  /** In key order the rows beyond a cursor are a suffix. */
  lemma {:induction false} AboveIsSuffix(rows: seq<Row>, cols: KeyColumns, cursor: Option<Key>) returns (k: nat)
    requires KeyOrdered(rows, cols)
    ensures k <= |rows| && AboveCursor(rows, cols, cursor) == rows[k..]
    ensures forall i :: 0 <= i < |rows| ==> (k <= i <==> Beyond(rows[i], cols, cursor))
  {
    if rows == [] {
      return 0;
    }
    OrderedTail(rows, cols);
    var t := AboveIsSuffix(rows[1..], cols, cursor);
    assert forall i :: 1 <= i < |rows| ==> rows[i] == rows[1..][i - 1];
    if Beyond(rows[0], cols, cursor) {
      forall i | 1 <= i < |rows|
        ensures Beyond(rows[i], cols, cursor)
      {
        assert Beyond(rows[i], cols, Some(KeyOf(rows[0], cols)));
        if cursor.Some? {
          LexTransitive(cursor.value, KeyOf(rows[0], cols), KeyOf(rows[i], cols));
        }
      }
      assert |rows| > 1 ==> Beyond(rows[1..][0], cols, cursor);
      k := 0;
    } else {
      k := t + 1;
    }
  }

  /** Moving the cursor to the last row of a page leaves exactly the rows behind that page. */
  lemma CursorBehind(rows: seq<Row>, cols: KeyColumns, i: nat)
    requires KeyOrdered(rows, cols) && i < |rows|
    ensures Fits(rows[i], cols) && AboveCursor(rows, cols, Some(KeyOf(rows[i], cols))) == rows[i + 1..]
  {
    assert Fits(rows[i], cols);
    var cursor := Some(KeyOf(rows[i], cols));
    var k := AboveIsSuffix(rows, cols, cursor);
    LexIrreflexive(KeyOf(rows[i], cols));
    assert !Beyond(rows[i], cols, cursor);
    if i + 1 < |rows| {
      assert Beyond(rows[i + 1], cols, cursor);
    }
  }

  /** The page after a cursor, the cursor behind that page, and what is left. */
  lemma PageAdvance(rows: seq<Row>, cols: KeyColumns, cursor: Option<Key>, n: nat)
    requires KeyOrdered(rows, cols) && n >= 1 && FetchPage(rows, cols, cursor, n) != []
    ensures var page := FetchPage(rows, cols, cursor, n);
      && Fits(page[|page| - 1], cols)
      && AboveCursor(rows, cols, cursor) == page + AboveCursor(rows, cols, Some(KeyOf(page[|page| - 1], cols)))
  {
    var page := FetchPage(rows, cols, cursor, n);
    var k := AboveIsSuffix(rows, cols, cursor);
    var last := k + |page| - 1;
    assert page == rows[k..k + |page|] && page[|page| - 1] == rows[last];
    CursorBehind(rows, cols, last);
    assert rows[k..] == page + rows[last + 1..];
  }

  /** Where the cursor stands: the first row from i on that is beyond it. */
  function FirstBeyond(rows: seq<Row>, cols: KeyColumns, cursor: Option<Key>, i: nat): (q: nat)
    requires i <= |rows|
    ensures q <= |rows|
    decreases |rows| - i
  {
    if i == |rows| || Beyond(rows[i], cols, cursor) then i else FirstBeyond(rows, cols, cursor, i + 1)
  }

  function Position(rows: seq<Row>, cols: KeyColumns, cursor: Option<Key>): (q: nat)
    ensures q <= |rows|
  {
    FirstBeyond(rows, cols, cursor, 0)
  }

  lemma {:induction false} FirstBeyondIs(rows: seq<Row>, cols: KeyColumns, cursor: Option<Key>, i: nat, q: nat)
    requires i <= q <= |rows| && forall j :: 0 <= j < |rows| ==> (q <= j <==> Beyond(rows[j], cols, cursor))
    ensures FirstBeyond(rows, cols, cursor, i) == q
    decreases |rows| - i
  {
    if i < q {
      FirstBeyondIs(rows, cols, cursor, i + 1, q);
    }
  }

  /** In key order, what a query returns for a cursor is everything from its position on. */
  lemma PositionSplits(rows: seq<Row>, cols: KeyColumns, cursor: Option<Key>)
    requires KeyOrdered(rows, cols)
    ensures var q := Position(rows, cols, cursor);
      AboveCursor(rows, cols, cursor) == rows[q..] && forall i :: 0 <= i < |rows|
                                                        ==> (q <= i <==> Beyond(rows[i], cols, cursor))
  {
    var q := AboveIsSuffix(rows, cols, cursor);
    FirstBeyondIs(rows, cols, cursor, 0, q);
  }

  lemma StartsAtZero(rows: seq<Row>, cols: KeyColumns)
    requires AllFit(rows, cols)
    ensures Position(rows, cols, None) == 0
  {
    assert rows != [] ==> Fits(rows[0], cols);
  }

  function PageSize(total: nat, n: nat, q: nat): (m: nat)
    requires q <= total
    ensures q + m <= total
  {
    if n <= total - q then n else total - q
  }

  /** A page continues where the cursor stands, and the cursor behind it stands where the page ends. */
  lemma PageAhead(rows: seq<Row>, cols: KeyColumns, cursor: Option<Key>, n: nat)
    requires KeyOrdered(rows, cols) && n >= 1
    ensures var q := Position(rows, cols, cursor);
      var m := PageSize(|rows|, n, q);
      var page := FetchPage(rows, cols, cursor, n);
      && page == rows[q..q + m] && |page| == m
      && (m > 0 ==> page[m - 1] == rows[q + m - 1] && Fits(rows[q + m - 1], cols) &&
                    Position(rows, cols, Some(KeyOf(rows[q + m - 1], cols))) == q + m)
  {
    PositionSplits(rows, cols, cursor);
    var q := Position(rows, cols, cursor);
    var m := PageSize(|rows|, n, q);
    assert FetchPage(rows, cols, cursor, n) == rows[q..q + m];
    if m > 0 {
      PageEnd(rows, cols, q + m - 1);
    }
  }

  lemma PageEnd(rows: seq<Row>, cols: KeyColumns, last: nat)
    requires KeyOrdered(rows, cols) && last < |rows|
    ensures Fits(rows[last], cols) && Position(rows, cols, Some(KeyOf(rows[last], cols))) == last + 1
  {
    CursorBehind(rows, cols, last);
    PositionSplits(rows, cols, Some(KeyOf(rows[last], cols)));
  }

  /** How many pages of n rows hold the given number of rows. */
  function Chunks(rows: nat, n: nat): nat
    requires n >= 1
    decreases rows
  {
    if rows == 0 then 0 else if rows <= n then 1 else 1 + Chunks(rows - n, n)
  }

  /** It is the row count divided by the page size, rounded up. */
  lemma {:induction false} ChunksRoundUp(rows: nat, n: nat)
    requires n >= 1
    ensures rows <= Chunks(rows, n) * n < rows + n
    decreases rows
  {
    if rows > n {
      ChunksRoundUp(rows - n, n);
    }
  }

  /** One query, with the cursor of its last row. */
  method ReadPage(rows: seq<Row>, cols: KeyColumns, cursor: Option<Key>, n: nat)
    returns (page: seq<Row>, lastKey: Option<Key>)
    requires KeyOrdered(rows, cols) && n >= 1
    ensures var q := Position(rows, cols, cursor);
      && page == rows[q..q + PageSize(|rows|, n, q)]
      && (page != [] ==> Position(rows, cols, lastKey) == q + |page|)
  {
    PageAhead(rows, cols, cursor, n);
    page := FetchPage(rows, cols, cursor, n);
    lastKey := if page == [] then None else Some(KeyOf(page[|page| - 1], cols));
  }

  function Concat(pages: seq<seq<Row>>): seq<Row>
    decreases |pages|
  {
    if pages == [] then [] else Concat(pages[..|pages| - 1]) + pages[|pages| - 1]
  }

  /** The paging loop: every page but the last is full, none is empty. */
  ghost predicate Paged(pages: seq<seq<Row>>, n: nat) {
    && (forall i :: 0 <= i < |pages| ==> 1 <= |pages[i]| <= n)
    && (forall i :: 0 <= i < |pages| - 1 ==> |pages[i]| == n)
  }

  /** Reads all pages: no row is skipped and none is read twice, for every page size and
      every starting cursor, whether or not a row has that key. */
  method ReadPages(rows: seq<Row>, cols: KeyColumns, start: Option<Key>, n: nat) returns (pages: seq<seq<Row>>)
    requires KeyOrdered(rows, cols) && n >= 1
    ensures Concat(pages) == AboveCursor(rows, cols, start) && Paged(pages, n)
  {
    pages := [];
    var cursor := start;
    while true
      invariant Concat(pages) + AboveCursor(rows, cols, cursor) == AboveCursor(rows, cols, start)
      invariant forall i :: 0 <= i < |pages| ==> |pages[i]| == n
      decreases |AboveCursor(rows, cols, cursor)|
    {
      var page := FetchPage(rows, cols, cursor, n);
      if page == [] {
        break;
      }
      PageAdvance(rows, cols, cursor, n);
      cursor := Some(KeyOf(page[|page| - 1], cols));
      AppendAssociative(Concat(pages), page, AboveCursor(rows, cols, cursor));
      assert (pages + [page])[..|pages|] == pages;
      pages := pages + [page];
      if |page| < n {
        break;
      }
    }
  }

  lemma {:induction false} FullPages(pages: seq<seq<Row>>, n: nat)
    requires forall i :: 0 <= i < |pages| ==> |pages[i]| == n
    ensures |Concat(pages)| == |pages| * n
    decreases |pages|
  {
    if pages != [] {
      FullPages(pages[..|pages| - 1], n);
    }
  }

  lemma OneMoreTimes(f: nat, n: nat)
    ensures (f + 1) * n == f * n + n
  {}

  /** The number of pages is the row count divided by the page size, rounded up: it is the
      only number for which this holds. */
  lemma PageCount(pages: seq<seq<Row>>, n: nat)
    requires n >= 1 && Paged(pages, n)
    ensures |Concat(pages)| <= |pages| * n < |Concat(pages)| + n
  {
    if pages != [] {
      var f := |pages| - 1;
      FullPages(pages[..f], n);
      OneMoreTimes(f, n);
      assert |pages[f]| <= n;
    }
  }

  /** The key order of a table is unique: however its rows are stored, a query reads one sequence. */
  lemma {:induction false} KeyOrderUnique(a: seq<Row>, b: seq<Row>, cols: KeyColumns)
    requires KeyOrdered(a, cols) && KeyOrdered(b, cols)
    requires Members(a) == Members(b)
    ensures a == b
  {
    assert forall i :: 0 <= i < |a| ==> a[i] in Members(b);
    assert forall i :: 0 <= i < |b| ==> b[i] in Members(a);
    if a != [] && b != [] {
      HeadLeast(a, cols, b[0]);
      HeadLeast(b, cols, a[0]);
      assert a[0] == b[0];
      OrderedTail(a, cols);
      OrderedTail(b, cols);
      TailMembers(a, cols);
      TailMembers(b, cols);
      KeyOrderUnique(a[1..], b[1..], cols);
      assert a == [a[0]] + a[1..] && b == [b[0]] + b[1..];
    }
  }

  lemma HeadLeast(rows: seq<Row>, cols: KeyColumns, row: Row)
    requires KeyOrdered(rows, cols) && row in rows
    ensures Fits(rows[0], cols) && Fits(row, cols)
    ensures row == rows[0] || (LexLess(KeyOf(rows[0], cols), KeyOf(row, cols))
      && !LexLess(KeyOf(row, cols), KeyOf(rows[0], cols)))
  {
    assert Fits(rows[0], cols);
    var i :| 0 <= i < |rows| && rows[i] == row;
    if i > 0 {
      assert Beyond(rows[i], cols, Some(KeyOf(rows[0], cols)));
      if LexLess(KeyOf(row, cols), KeyOf(rows[0], cols)) {
        LexTransitive(KeyOf(rows[0], cols), KeyOf(row, cols), KeyOf(rows[0], cols));
        LexIrreflexive(KeyOf(rows[0], cols));
      }
    }
  }

  lemma TailMembers(rows: seq<Row>, cols: KeyColumns)
    requires KeyOrdered(rows, cols) && rows != []
    ensures Members(rows[1..]) == Members(rows) - {rows[0]}
  {
    assert rows == [rows[0]] + rows[1..];
    forall i | 1 <= i < |rows|
      ensures rows[i] != rows[0]
    {
      assert Beyond(rows[i], cols, Some(KeyOf(rows[0], cols)));
      LexIrreflexive(KeyOf(rows[0], cols));
    }
  }
}
