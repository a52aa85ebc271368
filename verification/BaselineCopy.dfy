/** The baseline copy of one table: keyset pages, one destination transaction per page, and a
    checkpoint that is saved after the transaction and not together with it. */
module BaselineCopy {
  import opened Ordering
  import opened Wrappers
  import opened Keyset

  /** A source table that does not change between runs: its rows in key order, the key that the
      copy pages by, and the unique keys of the destination table. */
  datatype Source = Source(rows: seq<Row>, cols: KeyColumns, uniques: set<KeyColumns>)

  predicate SameKey(a: Row, b: Row, key: KeyColumns) {
    Fits(a, key) && Fits(b, key) && KeyOf(a, key) == KeyOf(b, key)
  }

  /** Two rows that one table cannot hold together. */
  predicate Clash(a: Row, b: Row, uniques: set<KeyColumns>) {
    exists key :: key in uniques && SameKey(a, b, key)
  }

  ghost predicate Stable(src: Source) {
    && KeyOrdered(src.rows, src.cols) && src.cols != [] && src.cols in src.uniques
    && forall i, j {:trigger Clash(src.rows[i], src.rows[j], src.uniques)} ::
         0 <= i < |src.rows| && 0 <= j < |src.rows| && i != j ==> !Clash(src.rows[i], src.rows[j], src.uniques)
  }

  /** The rows from a up to b. */
  function Span(rows: seq<Row>, a: nat, b: nat): set<Row>
    requires a <= b <= |rows|
    decreases b
  {
    if a == b then {} else Span(rows, a, b - 1) + {rows[b - 1]}
  }

  lemma {:induction false} SpanHas(rows: seq<Row>, a: nat, b: nat, row: Row)
    requires a <= b <= |rows|
    ensures row in Span(rows, a, b) <==> exists i :: a <= i < b && rows[i] == row
    decreases b
  {
    if a < b {
      SpanHas(rows, a, b - 1, row);
    }
  }

  lemma {:induction false} SpanSplit(rows: seq<Row>, a: nat, b: nat, c: nat)
    requires a <= b <= c <= |rows|
    ensures Span(rows, a, c) == Span(rows, a, b) + Span(rows, b, c)
    decreases c
  {
    if b < c {
      SpanSplit(rows, a, b, c - 1);
    }
  }

  lemma WholeSpan(rows: seq<Row>)
    ensures Span(rows, 0, |rows|) == Members(rows)
  {
    forall row
      ensures row in Span(rows, 0, |rows|) <==> row in Members(rows)
    {
      SpanHas(rows, 0, |rows|, row);
    }
  }

  lemma SpanApart(src: Source, a: nat, b: nat, c: nat)
    requires Stable(src) && a <= b <= c <= |src.rows|
    ensures Span(src.rows, a, b) !! Span(src.rows, b, c)
  {
    forall row | row in Span(src.rows, a, b)
      ensures row !in Span(src.rows, b, c)
    {
      SpanHas(src.rows, a, b, row);
      SpanHas(src.rows, b, c, row);
      var i :| a <= i < b && src.rows[i] == row;
      OwnClash(src, i);
      assert forall j :: b <= j < c ==> src.rows[j] != row;
    }
  }

  // ----- one destination transaction -----

  predicate Conflicts(dest: set<Row>, row: Row, uniques: set<KeyColumns>) {
    exists r :: r in dest && Clash(r, row, uniques)
  }

  /** The table after inserting the rows from a up to b, or None when one meets a duplicate key. */
  function InsertAll(dest: set<Row>, rows: seq<Row>, a: nat, b: nat, uniques: set<KeyColumns>): Option<set<Row>>
    requires a <= b <= |rows|
    decreases b
  {
    if a == b then Some(dest)
    else
      var before := InsertAll(dest, rows, a, b - 1, uniques);
      if before.None? || Conflicts(before.value, rows[b - 1], uniques) then None else Some(before.value + {rows[b - 1]})
  }

  /** Inserting source rows into a part of the source works exactly when none is there yet. */
  lemma {:induction false} InsertSpan(src: Source, dest: set<Row>, a: nat, b: nat)
    requires Stable(src) && a <= b <= |src.rows| && dest <= Members(src.rows)
    ensures InsertAll(dest, src.rows, a, b, src.uniques)
         == if Span(src.rows, a, b) !! dest then Some(dest + Span(src.rows, a, b)) else None
    decreases b
  {
    if a == b {
      assert dest + Span(src.rows, a, b) == dest;
    } else {
      InsertSpan(src, dest, a, b - 1);
      NewRow(src, a, b);
      OneMore(src, dest, Span(src.rows, a, b - 1), b - 1);
    }
  }

  lemma NewRow(src: Source, a: nat, b: nat)
    requires Stable(src) && a < b <= |src.rows|
    ensures src.rows[b - 1] !in Span(src.rows, a, b - 1) && Span(src.rows, a, b - 1) <= Members(src.rows)
  {
    SpanSplit(src.rows, 0, a, b - 1);
    SpanSplit(src.rows, 0, b - 1, |src.rows|);
    WholeSpan(src.rows);
    SpanApart(src, a, b - 1, b);
    SpanHas(src.rows, b - 1, b, src.rows[b - 1]);
  }

  /** Whether one more row goes in behind those before it. */
  lemma OneMore(src: Source, dest: set<Row>, before: set<Row>, last: nat)
    requires Stable(src) && last < |src.rows| && dest <= Members(src.rows) && before <= Members(src.rows)
      && src.rows[last] !in before
    ensures Conflicts(dest + before, src.rows[last], src.uniques) <==> src.rows[last] in dest
    ensures before + {src.rows[last]} !! dest <==> before !! dest && src.rows[last] !in dest
    ensures dest + (before + {src.rows[last]}) == dest + before + {src.rows[last]}
  {
    ConflictIff(src, dest + before, last);
  }

  lemma {:induction false} InsertSlice(dest: set<Row>, rows: seq<Row>, q: nat, m: nat, k: nat, uniques: set<KeyColumns>)
    requires k <= m && q + m <= |rows|
    ensures InsertAll(dest, rows[q..q + m], 0, k, uniques) == InsertAll(dest, rows, q, q + k, uniques)
  {
    if k > 0 {
      InsertSlice(dest, rows, q, m, k - 1, uniques);
      assert rows[q..q + m][k - 1] == rows[q + k - 1];
    }
  }

  lemma {:induction false} InsertPrefix(dest: set<Row>, rows: seq<Row>, a: nat, k: nat, b: nat,
                                        uniques: set<KeyColumns>)
    requires a <= k <= b <= |rows| && InsertAll(dest, rows, a, k, uniques).None?
    ensures InsertAll(dest, rows, a, b, uniques).None?
  {
    if k < b {
      InsertPrefix(dest, rows, a, k, b - 1, uniques);
    }
  }

  lemma OwnClash(src: Source, i: nat)
    requires Stable(src) && i < |src.rows|
    ensures Clash(src.rows[i], src.rows[i], src.uniques)
  {
    assert Fits(src.rows[i], src.cols);
    assert SameKey(src.rows[i], src.rows[i], src.cols);
  }

  lemma ConflictIff(src: Source, dest: set<Row>, i: nat)
    requires Stable(src) && i < |src.rows| && dest <= Members(src.rows)
    ensures Conflicts(dest, src.rows[i], src.uniques) <==> src.rows[i] in dest
  {
    OwnClash(src, i);
    if Conflicts(dest, src.rows[i], src.uniques) {
      var r :| r in dest && Clash(r, src.rows[i], src.uniques);
      assert r in Members(src.rows);
      var j :| 0 <= j < |src.rows| && src.rows[j] == r;
    }
  }

  // ----- the checkpoint entry -----

  datatype Progress = Progress(rowsCopied: nat, keyColumns: KeyColumns, cursor: Key, done: bool)

  const FRESH := Progress(0, [], [], false)

  /** checkpointCursorArgs: a saved cursor counts only for the key columns it was saved under. */
  function CheckpointCursor(p: Progress, cols: KeyColumns): Option<Key> {
    if |p.cursor| == 0 then None
    else if |p.keyColumns| == |cols| && p.keyColumns != cols then None
    else if |p.cursor| != |cols| then None
    else Some(p.cursor)
  }

  ghost predicate IsTop(dest: set<Row>, cols: KeyColumns, key: Key) {
    && (exists r :: r in dest && Fits(r, cols) && KeyOf(r, cols) == key)
    && (forall r :: r in dest && Fits(r, cols) ==> !LexLess(key, KeyOf(r, cols)))
  }

  /** destinationResumeCursor: the greatest key in the destination. */
  method DestinationResumeCursor(dest: set<Row>, cols: KeyColumns) returns (key: Option<Key>)
    ensures key == TopKey(dest, cols)
  {
    key := None;
    var rest := dest;
    while rest != {}
      invariant rest <= dest
      invariant if key.None? then forall r :: r in dest - rest
                                    ==> !Fits(r, cols) else IsTop(dest - rest, cols, key.value)
    {
      var row :| row in rest;
      AnotherTop(dest - rest, cols, key, row);
      if Fits(row, cols) && (key.None? || LexLess(key.value, KeyOf(row, cols))) {
        key := Some(KeyOf(row, cols));
      }
      assert dest - (rest - {row}) == dest - rest + {row};
      rest := rest - {row};
    }
    assert dest - rest == dest;
    if key.Some? {
      TopUnique(dest, cols, key.value);
    }
  }

  lemma AnotherTop(seen: set<Row>, cols: KeyColumns, key: Option<Key>, row: Row)
    requires if key.None? then forall r :: r in seen ==> !Fits(r, cols) else IsTop(seen, cols, key.value)
    ensures Fits(row, cols) && (key.None? || LexLess(key.value, KeyOf(row, cols)))
      ==> IsTop(seen + {row}, cols, KeyOf(row, cols))
    ensures key.Some? && !(Fits(row, cols) && LexLess(key.value, KeyOf(row, cols)))
      ==> IsTop(seen + {row}, cols, key.value)
  {
    if Fits(row, cols) {
      var k := KeyOf(row, cols);
      assert row in seen + {row};
      LexIrreflexive(k);
      if key.Some? && LexLess(key.value, k) {
        forall r | r in seen && Fits(r, cols)
          ensures !LexLess(k, KeyOf(r, cols))
        {
          if LexLess(k, KeyOf(r, cols)) {
            LexTransitive(key.value, k, KeyOf(r, cols));
          }
        }
      }
    }
  }

  lemma TopUnique(dest: set<Row>, cols: KeyColumns, key: Key)
    requires IsTop(dest, cols, key)
    ensures TopKey(dest, cols) == Some(key)
  {
    var other := TopKey(dest, cols).value;
    LexTotal(key, other);
  }

  ghost function TopKey(dest: set<Row>, cols: KeyColumns): (key: Option<Key>)
    ensures key.Some? ==> IsTop(dest, cols, key.value)
    ensures key.None? <==> forall r :: r in dest ==> !Fits(r, cols)
  {
    if exists r :: r in dest && Fits(r, cols) then
      TopExists(dest, cols);
      var key :| IsTop(dest, cols, key);
      Some(key)
    else None
  }

  lemma {:induction false} TopExists(dest: set<Row>, cols: KeyColumns)
    requires exists r :: r in dest && Fits(r, cols)
    ensures exists key :: IsTop(dest, cols, key)
  {
    var row :| row in dest;
    var rest := dest - {row};
    assert rest + {row} == dest;
    if exists r :: r in rest && Fits(r, cols) {
      TopExists(rest, cols);
      var key :| IsTop(rest, cols, key);
      AnotherTop(rest, cols, Some(key), row);
    } else {
      AnotherTop(rest, cols, None, row);
    }
  }

  // ----- one run -----

  /** What becomes of one step: it takes effect and the run goes on, or the run ends before the
      destination commits, between that commit and the save, or behind the save. */
  datatype Fate = Completes | StopsBefore | StopsUnsaved | StopsSaved

  datatype Outcome = Finished | Stopped | DuplicateKey | NoStableKey

  datatype State = State(dest: set<Row>, file: Progress)

  function FateAt(fates: seq<Fate>, i: nat): Fate {
    if i < |fates| then fates[i] else Completes
  }

  /** The entry after the m rows from row q on. */
  function Saved(src: Source, p: Progress, q: nat, m: nat): Progress
    requires AllFit(src.rows, src.cols) && m > 0 && q + m <= |src.rows|
  {
    assert Fits(src.rows[q + m - 1], src.cols);
    Progress(p.rowsCopied + m, src.cols, KeyOf(src.rows[q + m - 1], src.cols), p.done)
  }

  /** One page from row q on, and how the loop ends with it, if it does. */
  function OnePage(src: Source, n: nat, q: nat, p: Progress, s: State,
                   fate: Fate): (r: (State, Progress, Option<Outcome>))
    requires AllFit(src.rows, src.cols) && n >= 1 && q < |src.rows|
    ensures r.2 == None ==> q + n <= |src.rows|
  {
    var m := PageSize(|src.rows|, n, q);
    var dest := InsertAll(s.dest, src.rows, q, q + m, src.uniques);
    if fate == StopsBefore then (s, p, Some(Stopped))
    else if dest.None? then (s, p, Some(DuplicateKey))
    else
      var p' := Saved(src, p, q, m);
      if fate == StopsUnsaved then (State(dest.value, s.file), p', Some(Stopped))
      else if fate == StopsSaved then (State(dest.value, p'), p', Some(Stopped))
      else (State(dest.value, p'), p', if m < n then Some(Finished) else None)
  }

  /** The copy loop from row q on; i counts the pages. */
  function Pages(src: Source, n: nat, q: nat, p: Progress, s: State, fates: seq<Fate>,
                 i: nat): (State, Progress, Outcome)
    requires AllFit(src.rows, src.cols) && n >= 1 && q <= |src.rows|
    decreases |src.rows| - q
  {
    if q == |src.rows| then (s, p, Finished)
    else
      var (s', p', end) := OnePage(src, n, q, p, s, FateAt(fates, i));
      if end.Some? then (s', p', end.value) else Pages(src, n, q + n, p', s', fates, i + 1)
  }

  lemma GoesOn(src: Source, n: nat, q: nat, p: Progress, s: State, fates: seq<Fate>, i: nat, p': Progress, s': State)
    requires AllFit(src.rows, src.cols) && n >= 1 && q < |src.rows|
    requires OnePage(src, n, q, p, s, FateAt(fates, i)) == (s', p', None)
    ensures Pages(src, n, q, p, s, fates, i) == Pages(src, n, q + n, p', s', fates, i + 1)
  {}

  lemma Ends(src: Source, n: nat, q: nat, p: Progress, s: State, fates: seq<Fate>, i: nat, p': Progress, s': State,
             outcome: Outcome)
    requires AllFit(src.rows, src.cols) && n >= 1 && q < |src.rows|
    requires OnePage(src, n, q, p, s, FateAt(fates, i)) == (s', p', Some(outcome))
    ensures Pages(src, n, q, p, s, fates, i) == (s', p', outcome)
  {}

  /** Where a run starts reading, and the entry it starts from. */
  ghost function StartOf(src: Source, resume: bool, s: State): (Option<Key>, Progress) {
    var p := if resume then s.file else FRESH;
    var cursor := CheckpointCursor(p, src.cols);
    if resume && p.rowsCopied > 0 && cursor.None? then
      var top := TopKey(s.dest, src.cols);
      (top, if top.Some? then p.(cursor := top.value, keyColumns := src.cols) else p)
    else (cursor, p)
  }

  /** One run over one table: without resume a fresh checkpoint replaces the file first. */
  ghost function Run(src: Source, n: nat, resume: bool, s: State, fates: seq<Fate>, last: Fate): (State, Outcome)
    requires KeyOrdered(src.rows, src.cols) && n >= 1
  {
    var s0 := if resume then s else s.(file := FRESH);
    if s0.file.done then (s0, Finished)
    else if src.cols == [] then (s0, NoStableKey)
    else
      var (cursor, p) := StartOf(src, resume, s);
      var (s1, p1, outcome) := Pages(src, n, Position(src.rows, src.cols, cursor), p, s0, fates, 0);
      if outcome != Finished then (s1, outcome)
      else if last == StopsBefore || last == StopsUnsaved then (s1, Stopped)
      else (s1.(file := p1.(done := true)), if last == Completes then Finished else Stopped)
  }

  /** The destination table and the checkpoint file of one table. */
  class TableCopy {
    var dest: set<Row>
    var file: Progress

    function Now(): State
      reads this
    {
      State(dest, file)
    }

    /** applyBatch: all rows or none. */
    method ApplyBatch(page: seq<Row>, uniques: set<KeyColumns>) returns (ok: bool)
      modifies this`dest
      ensures ok == InsertAll(old(dest), page, 0, |page|, uniques).Some?
      ensures dest == if ok then InsertAll(old(dest), page, 0, |page|, uniques).value else old(dest)
    {
      var pending := dest;
      for i := 0 to |page|
        invariant dest == old(dest) && InsertAll(dest, page, 0, i, uniques) == Some(pending)
      {
        if Conflicts(pending, page[i], uniques) {
          InsertPrefix(dest, page, 0, i + 1, |page|, uniques);
          return false;
        }
        pending := pending + {page[i]};
      }
      dest := pending;
      return true;
    }

    /** copyOneTable. */
    method CopyOneTable(src: Source, n: nat, resume: bool, fates: seq<Fate>, last: Fate) returns (outcome: Outcome)
      requires KeyOrdered(src.rows, src.cols) && n >= 1
      modifies this
      ensures (Now(), outcome) == Run(src, n, resume, old(Now()), fates, last)
    {
      if !resume {
        file := FRESH;
      }
      var progress := file;
      if progress.done {
        return Finished;
      }
      if src.cols == [] {
        return NoStableKey;
      }
      var cursor := CheckpointCursor(progress, src.cols);
      if resume && progress.rowsCopied > 0 && cursor.None? {
        cursor := DestinationResumeCursor(dest, src.cols);
        if cursor.Some? {
          progress := progress.(cursor := cursor.value, keyColumns := src.cols);
        }
      }
      outcome, progress := CopyPages(src, n, cursor, progress, fates);
      if outcome != Finished {
        return outcome;
      }
      if last == StopsBefore || last == StopsUnsaved {
        return Stopped;
      }
      file := progress.(done := true);
      return if last == Completes then Finished else Stopped;
    }

    /** The body of the loop for a page that is not empty. */
    method CopyPage(src: Source, n: nat, ghost q: nat, page: seq<Row>, entry: Progress, fate: Fate)
      returns (progress: Progress, end: Option<Outcome>)
      requires AllFit(src.rows, src.cols) && n >= 1 && q < |src.rows|
      requires page == src.rows[q..q + PageSize(|src.rows|, n, q)]
      modifies this
      ensures (Now(), progress, end) == OnePage(src, n, q, entry, old(Now()), fate)
    {
      progress := entry;
      if fate == StopsBefore {
        return progress, Some(Stopped);
      }
      InsertSlice(dest, src.rows, q, |page|, |page|, src.uniques);
      var ok := ApplyBatch(page, src.uniques);
      if !ok {
        return progress, Some(DuplicateKey);
      }
      assert page[|page| - 1] == src.rows[q + |page| - 1] && Fits(src.rows[q + |page| - 1], src.cols);
      progress := Progress(progress.rowsCopied + |page|, src.cols, KeyOf(page[|page| - 1], src.cols), progress.done);
      if fate == StopsUnsaved {
        return progress, Some(Stopped);
      }
      file := progress;
      if fate == StopsSaved {
        return progress, Some(Stopped);
      }
      return progress, if |page| < n then Some(Finished) else None;
    }

    method CopyPages(src: Source, n: nat, start: Option<Key>, entry: Progress, fates: seq<Fate>)
      returns (outcome: Outcome, progress: Progress)
      requires KeyOrdered(src.rows, src.cols) && n >= 1
      modifies this
      ensures (Now(), progress, outcome)
        == Pages(src, n, Position(src.rows, src.cols, start), entry, old(Now()), fates, 0)
    {
      var cursor := start;
      progress := entry;
      var i := 0;
      ghost var q := Position(src.rows, src.cols, start);
      while true
        invariant q == Position(src.rows, src.cols, cursor)
        invariant Pages(src, n, q, progress, Now(), fates, i)
          == Pages(src, n, Position(src.rows, src.cols, start), entry, old(Now()), fates, 0)
        decreases |src.rows| - q
      {
        PageAhead(src.rows, src.cols, cursor, n);
        var page := FetchPage(src.rows, src.cols, cursor, n);
        if page == [] {
          return Finished, progress;
        }
        ghost var p, s := progress, Now();
        var end;
        progress, end := CopyPage(src, n, q, page, progress, FateAt(fates, i));
        if end.Some? {
          Ends(src, n, q, p, s, fates, i, progress, Now(), end.value);
          return end.value, progress;
        }
        GoesOn(src, n, q, p, s, fates, i, progress, Now());
        cursor := Some(progress.cursor);
        q := q + n;
        i := i + 1;
      }
    }
  }

  // ----- crash safety -----

  /** The first rows in key order. */
  function Prefix(src: Source, k: nat): set<Row>
    requires k <= |src.rows|
  {
    Span(src.rows, 0, k)
  }

  /** The checkpoint entry saved behind the first j rows. */
  function FileOf(src: Source, j: nat): Progress
    requires AllFit(src.rows, src.cols) && j <= |src.rows|
  {
    if j == 0 then FRESH
    else
      assert Fits(src.rows[j - 1], src.cols);
      Progress(j, src.cols, KeyOf(src.rows[j - 1], src.cols), false)
  }

  /** The destination holds the first k rows and the file has the first j of them. */
  function Made(src: Source, k: nat, j: nat): State
    requires AllFit(src.rows, src.cols) && j <= |src.rows| && k <= |src.rows|
  {
    State(Prefix(src, k), FileOf(src, j))
  }

  lemma CursorStands(src: Source, j: nat)
    requires Stable(src) && j <= |src.rows|
    ensures var cursor := CheckpointCursor(FileOf(src, j), src.cols);
      Position(src.rows, src.cols, cursor) == j && (j > 0 ==> cursor.Some?)
  {
    if j == 0 {
      StartsAtZero(src.rows, src.cols);
    } else {
      PageEnd(src.rows, src.cols, j - 1);
    }
  }

  /** A page inserts exactly when the file is level with the destination. */
  lemma PageInserts(src: Source, k: nat, j: nat, m: nat)
    requires Stable(src) && j <= k <= |src.rows| && m > 0 && j + m <= |src.rows|
    ensures InsertAll(Prefix(src, k), src.rows, j, j + m, src.uniques) == if j == k then Some(Prefix(src, k + m))
      else None
  {
    WholeSpan(src.rows);
    SpanSplit(src.rows, 0, k, |src.rows|);
    InsertSpan(src, Prefix(src, k), j, j + m);
    if j == k {
      SpanSplit(src.rows, 0, k, k + m);
      SpanApart(src, 0, k, k + m);
    } else {
      SpanHas(src.rows, j, j + m, src.rows[j]);
      SpanHas(src.rows, 0, k, src.rows[j]);
    }
  }

  /** Rows in the destination, in the file and in the entry in memory. */
  datatype Rows = Rows(copied: nat, saved: nat, held: nat)

  predicate Bounded(total: nat, r: Rows) {
    r.saved <= r.copied <= total && r.held <= total
  }

  /** One page on row counts alone. */
  function OneStep(total: nat, n: nat, k: nat, j: nat, fate: Fate): (r: (Rows, Option<Outcome>))
    requires j <= k <= total && j < total && n >= 1
    ensures Bounded(total, r.0) && (r.1 == None ==> j == k && k + n <= total && r.0 == Rows(k + n, k + n, k + n))
  {
    var m := PageSize(total, n, j);
    if fate == StopsBefore then (Rows(k, j, j), Some(Stopped))
    else if j < k then (Rows(k, j, j), Some(DuplicateKey))
    else if fate == StopsUnsaved then (Rows(k + m, j, j + m), Some(Stopped))
    else if fate == StopsSaved then (Rows(k + m, j + m, j + m), Some(Stopped))
    else (Rows(k + m, j + m, j + m), if m < n then Some(Finished) else None)
  }

  /** The copy loop on row counts alone: k rows in the destination, j rows in the file. */
  function Steps(total: nat, n: nat, k: nat, j: nat, fates: seq<Fate>, i: nat): (r: (Rows, Outcome))
    requires j <= k <= total && n >= 1
    ensures Bounded(total, r.0)
    decreases total - j
  {
    if j == total then (Rows(k, j, j), Finished)
    else
      var (r, end) := OneStep(total, n, k, j, FateAt(fates, i));
      if end.Some? then (r, end.value) else Steps(total, n, k + n, k + n, fates, i + 1)
  }

  /** The entry in memory and the state that row counts stand for. */
  function Shown(src: Source, r: Rows): (State, Progress)
    requires AllFit(src.rows, src.cols) && Bounded(|src.rows|, r)
  {
    (Made(src, r.copied, r.saved), FileOf(src, r.held))
  }

  lemma PageCounts(src: Source, n: nat, k: nat, j: nat, fate: Fate)
    requires Stable(src) && j <= k <= |src.rows| && j < |src.rows| && n >= 1
    ensures var (s', p', end) := OnePage(src, n, j, FileOf(src, j), Made(src, k, j), fate);
      var (r, end') := OneStep(|src.rows|, n, k, j, fate);
      (s', p') == Shown(src, r) && end == end'
  {
    var m := PageSize(|src.rows|, n, j);
    PageInserts(src, k, j, m);
    if j == k {
      LevelPage(src, n, k, fate);
    }
  }

  lemma LevelPage(src: Source, n: nat, k: nat, fate: Fate)
    requires Stable(src) && k < |src.rows| && n >= 1
    ensures var (s', p', end) := OnePage(src, n, k, FileOf(src, k), Made(src, k, k), fate);
      var (r, end') := OneStep(|src.rows|, n, k, k, fate);
      (s', p') == Shown(src, r) && end == end'
  {
    var m := PageSize(|src.rows|, n, k);
    PageInserts(src, k, k, m);
  }

  /** Whatever fails, the destination is a prefix of the source and the file is behind it, and
      the counts tell which. */
  lemma {:induction false} PagesCount(src: Source, n: nat, k: nat, j: nat, fates: seq<Fate>, i: nat)
    requires Stable(src) && j <= k <= |src.rows| && n >= 1
    ensures Counted(src, Pages(src, n, j, FileOf(src, j), Made(src, k, j), fates, i),
      Steps(|src.rows|, n, k, j, fates, i))
    decreases |src.rows| - j
  {
    if j < |src.rows| {
      PageCounts(src, n, k, j, FateAt(fates, i));
      var (r, end) := OneStep(|src.rows|, n, k, j, FateAt(fates, i));
      var (s, p) := Shown(src, r);
      if end.Some? {
        Ends(src, n, j, FileOf(src, j), Made(src, k, j), fates, i, p, s, end.value);
      } else {
        GoesOn(src, n, j, FileOf(src, j), Made(src, k, j), fates, i, p, s);
        PagesCount(src, n, k + n, k + n, fates, i + 1);
      }
    }
  }

  ghost predicate Counted(src: Source, loop: (State, Progress, Outcome), steps: (Rows, Outcome))
    requires AllFit(src.rows, src.cols) && Bounded(|src.rows|, steps.0)
  {
    (loop.0, loop.1) == Shown(src, steps.0) && loop.2 == steps.1
  }

  predicate Clean(fates: seq<Fate>) {
    forall i :: 0 <= i < |fates| ==> fates[i] == Completes
  }

  /** Behind the destination, every page is refused. */
  lemma BehindStays(total: nat, n: nat, k: nat, j: nat, fates: seq<Fate>, i: nat)
    requires j < k <= total && n >= 1
    ensures var (r, outcome) := Steps(total, n, k, j, fates, i);
      r == Rows(k, j, j) && outcome == if FateAt(fates, i) == StopsBefore then Stopped else DuplicateKey
  {}

  /** Level with the destination, nothing is undone, no page is refused, and only a lost save
      opens a gap. */
  lemma {:induction false} LevelGrows(total: nat, n: nat, k: nat, fates: seq<Fate>, i: nat)
    requires k <= total && n >= 1
    ensures var (r, outcome) := Steps(total, n, k, k, fates, i);
      && k <= r.saved <= r.copied
      && (outcome == Finished || outcome == Stopped)
      && (outcome == Finished ==> r == Rows(total, total, total))
      && (Clean(fates) ==> outcome == Finished)
      && (r.saved < r.copied ==> StopsUnsaved in fates)
    decreases total - k
  {
    if k < total && OneStep(total, n, k, k, FateAt(fates, i)).1 == None {
      LevelGrows(total, n, k + n, fates, i + 1);
    }
  }

  // ----- any number of runs -----

  datatype Counts = Counts(copied: nat, saved: nat, done: bool)

  predicate Within(total: nat, c: Counts) {
    c.saved <= c.copied <= total && (c.done ==> c.saved == c.copied == total)
  }

  /** The state that row counts stand for: a key-order prefix of the source, and a file behind it. */
  function Status(src: Source, c: Counts): State
    requires AllFit(src.rows, src.cols) && Within(|src.rows|, c)
  {
    State(Prefix(src, c.copied), FileOf(src, c.saved).(done := c.done))
  }

  /** A run in row counts. */
  function RunSteps(total: nat, n: nat, resume: bool, c: Counts, fates: seq<Fate>, last: Fate): (Counts, Outcome)
    requires Within(total, c) && n >= 1
  {
    if resume && c.done then (c, Finished)
    else
      var (r, outcome) := Steps(total, n, c.copied, if resume then c.saved else 0, fates, 0);
      if outcome != Finished then (Counts(r.copied, r.saved, false), outcome)
      else if last == StopsBefore || last == StopsUnsaved then (Counts(r.copied, r.saved, false), Stopped)
      else (Counts(r.copied, r.saved, true), if last == Completes then Finished else Stopped)
  }

  /** What the counts of a run are. */
  lemma RunLaws(total: nat, n: nat, resume: bool, c: Counts, fates: seq<Fate>, last: Fate)
    requires Within(total, c) && n >= 1
    ensures var (c', outcome) := RunSteps(total, n, resume, c, fates, last);
      && Within(total, c') && c.copied <= c'.copied
      && (outcome == Finished ==> c' == Counts(total, total, true))
      && (resume && c.saved < c.copied ==> c' == c)
      && (resume && c.saved == c.copied && StopsUnsaved !in fates ==> c'.saved == c'.copied)
      && (resume && Clean(fates) && last == Completes
         ==> outcome == if c.saved == c.copied then Finished else DuplicateKey)
  {
    if !(resume && c.done) {
      var j := if resume then c.saved else 0;
      if j < c.copied {
        BehindStays(total, n, c.copied, j, fates, 0);
      } else {
        LevelGrows(total, n, j, fates, 0);
      }
    }
  }

  lemma EndsWithAll(total: nat, n: nat, k: nat, j: nat, fates: seq<Fate>)
    requires j <= k <= total && n >= 1
    ensures Steps(total, n, k, j, fates, 0).1 == Finished
      ==> Steps(total, n, k, j, fates, 0).0 == Rows(total, total, total)
  {
    if j < k {
      BehindStays(total, n, k, j, fates, 0);
    } else {
      LevelGrows(total, n, k, fates, 0);
    }
  }

  /** A run whose loop starts at row q. */
  lemma RunFrom(src: Source, n: nat, resume: bool, s: State, fates: seq<Fate>, last: Fate, q: nat, p: Progress)
    requires KeyOrdered(src.rows, src.cols) && n >= 1 && src.cols != [] && !(resume && s.file.done) && q <= |src.rows|
    requires var (cursor, entry) := StartOf(src, resume, s); Position(src.rows, src.cols, cursor) == q && entry == p
    ensures var (s', p', outcome) := Pages(src, n, q, p, if resume then s else s.(file := FRESH), fates, 0);
      Run(src, n, resume, s, fates, last)
      == if outcome != Finished then (s', outcome)
         else if last == StopsBefore || last == StopsUnsaved then (s', Stopped)
         else (s'.(file := p'.(done := true)), if last == Completes then Finished else Stopped)
  {}

  lemma RunCount(src: Source, n: nat, resume: bool, c: Counts, fates: seq<Fate>, last: Fate)
    requires Stable(src) && Within(|src.rows|, c) && n >= 1
    ensures var (c', outcome) := RunSteps(|src.rows|, n, resume, c, fates, last);
      Within(|src.rows|, c') && Run(src, n, resume, Status(src, c), fates, last) == (Status(src, c'), outcome)
  {
    if !(resume && c.done) {
      var j := if resume then c.saved else 0;
      CursorStands(src, j);
      RunFrom(src, n, resume, Status(src, c), fates, last, j, FileOf(src, j));
      PagesCount(src, n, c.copied, j, fates, 0);
      EndsWithAll(|src.rows|, n, c.copied, j, fates);
    }
  }

  datatype Attempt = Attempt(chunkSize: nat, resume: bool, fates: seq<Fate>, last: Fate)

  predicate Sized(attempts: seq<Attempt>) {
    forall i :: 0 <= i < |attempts| ==> attempts[i].chunkSize >= 1
  }

  ghost function Runs(src: Source, s: State, attempts: seq<Attempt>): State
    requires KeyOrdered(src.rows, src.cols) && Sized(attempts)
    decreases |attempts|
  {
    if attempts == [] then s
    else
      var before, a := Runs(src, s, attempts[..|attempts| - 1]), attempts[|attempts| - 1];
      Run(src, a.chunkSize, a.resume, before, a.fates, a.last).0
  }

  /** Every attempt resumes, and none ends between a commit and its save. */
  predicate NoLostSave(attempts: seq<Attempt>) {
    forall i :: 0 <= i < |attempts| ==> attempts[i].resume && StopsUnsaved !in attempts[i].fates
  }

  /** After any attempts, however each of them ended, the destination is a key-order prefix of
      the source and the file is at or behind it; it is level when no save was lost. */
  lemma {:induction false} AlwaysPrefix(src: Source, attempts: seq<Attempt>) returns (c: Counts)
    requires Stable(src) && Sized(attempts)
    ensures Within(|src.rows|, c) && Runs(src, State({}, FRESH), attempts) == Status(src, c)
    ensures NoLostSave(attempts) ==> c.saved == c.copied
    decreases |attempts|
  {
    if attempts == [] {
      return Counts(0, 0, false);
    }
    var before := AlwaysPrefix(src, attempts[..|attempts| - 1]);
    var a := attempts[|attempts| - 1];
    RunCount(src, a.chunkSize, a.resume, before, a.fates, a.last);
    c := RunSteps(|src.rows|, a.chunkSize, a.resume, before, a.fates, a.last).0;
    RunLaws(|src.rows|, a.chunkSize, a.resume, before, a.fates, a.last);
  }

  /** A run that reports success has made the destination equal to the source. */
  lemma FinishedIsEqual(src: Source, n: nat, resume: bool, c: Counts, fates: seq<Fate>, last: Fate)
    requires Stable(src) && Within(|src.rows|, c) && n >= 1
    requires Run(src, n, resume, Status(src, c), fates, last).1 == Finished
    ensures Run(src, n, resume, Status(src, c), fates, last).0.dest == Members(src.rows)
  {
    RunCount(src, n, resume, c, fates, last);
    RunLaws(|src.rows|, n, resume, c, fates, last);
    WholeSpan(src.rows);
  }

  /** An undisturbed resumed run completes exactly when the file is level with the destination.
      Otherwise it meets a duplicate key and leaves everything as it was, for every chunk size. */
  lemma ResumeCompletesIff(src: Source, n: nat, c: Counts, fates: seq<Fate>)
    requires Stable(src) && Within(|src.rows|, c) && n >= 1 && Clean(fates)
    ensures var (s, outcome) := Run(src, n, true, Status(src, c), fates, Completes);
      if c.saved == c.copied then outcome == Finished && s.dest == Members(src.rows) && s.file.done
      else outcome == DuplicateKey && s == Status(src, c)
  {
    RunCount(src, n, true, c, fates, Completes);
    RunLaws(|src.rows|, n, true, c, fates, Completes);
    WholeSpan(src.rows);
  }

  /** A commit whose save is lost leaves a gap that no later resume closes. */
  lemma {:induction false} LostSaveBlocks(src: Source, c: Counts, attempts: seq<Attempt>)
    requires Stable(src) && Within(|src.rows|, c) && c.saved < c.copied && Sized(attempts)
    requires forall i :: 0 <= i < |attempts| ==> attempts[i].resume
    ensures Runs(src, Status(src, c), attempts) == Status(src, c)
    decreases |attempts|
  {
    if attempts != [] {
      var a := attempts[|attempts| - 1];
      LostSaveBlocks(src, c, attempts[..|attempts| - 1]);
      RunCount(src, a.chunkSize, true, c, a.fates, a.last);
      RunLaws(|src.rows|, a.chunkSize, true, c, a.fates, a.last);
    }
  }

  // ----- the fallback cursor -----

  /** The destination has earlier rows only. */
  ghost predicate Lacks(src: Source, dest: set<Row>, q: nat)
    requires q <= |src.rows|
  {
    dest <= Span(src.rows, 0, q)
  }

  /** What is added from row q0 up to row q. */
  function Filled(src: Source, dest: set<Row>, q0: nat, q: nat): set<Row>
    requires q0 <= q <= |src.rows|
  {
    dest + Span(src.rows, q0, q)
  }

  lemma Unions(d: set<Row>, a: set<Row>, b: set<Row>, before: set<Row>, all: set<Row>)
    requires d <= before && a <= before && before !! b && before <= all
    ensures b !! d + a && d + a <= all && d + a + b == d + (a + b)
  {}

  lemma InsertNext(src: Source, dest: set<Row>, q0: nat, q: nat, m: nat)
    requires Stable(src) && q0 <= q && q + m <= |src.rows| && Lacks(src, dest, q0)
    ensures InsertAll(Filled(src, dest, q0, q), src.rows, q, q + m, src.uniques) == Some(Filled(src, dest, q0, q + m))
  {
    WholeSpan(src.rows);
    SpanSplit(src.rows, 0, q0, q);
    SpanSplit(src.rows, 0, q, |src.rows|);
    SpanSplit(src.rows, q0, q, q + m);
    SpanApart(src, 0, q, q + m);
    Unions(dest, Span(src.rows, q0, q), Span(src.rows, q, q + m), Span(src.rows, 0, q), Members(src.rows));
    InsertSpan(src, dest + Span(src.rows, q0, q), q, q + m);
  }

  lemma FillPage(src: Source, n: nat, dest: set<Row>, q0: nat, q: nat, p: Progress, s: State)
    returns (p': Progress, s': State)
    requires Stable(src) && n >= 1 && q0 <= q < |src.rows| && Lacks(src, dest, q0) && s.dest == Filled(src, dest, q0, q)
    ensures var m := PageSize(|src.rows|, n, q);
      && s'.dest == Filled(src, dest, q0, q + m)
      && OnePage(src, n, q, p, s, Completes) == (s', p', if m < n then Some(Finished) else None)
      && p'.keyColumns == src.cols
  {
    InsertNext(src, dest, q0, q, PageSize(|src.rows|, n, q));
    p' := OnePage(src, n, q, p, s, Completes).1;
    s' := OnePage(src, n, q, p, s, Completes).0;
  }

  /** An undisturbed loop adds every row from its start on. */
  lemma {:induction false} PagesFill(src: Source, n: nat, dest: set<Row>, q0: nat, q: nat, p: Progress, s: State,
                                     fates: seq<Fate>, i: nat)
    returns (loop: (State, Progress, Outcome))
    requires Stable(src) && n >= 1 && Clean(fates) && q0 <= q <= |src.rows| && Lacks(src, dest, q0)
      && s.dest == Filled(src, dest, q0, q)
    ensures loop == Pages(src, n, q, p, s, fates, i)
    ensures loop.2 == Finished && loop.0.dest == Filled(src, dest, q0, |src.rows|)
    ensures p.keyColumns == src.cols ==> loop.1.keyColumns == src.cols
    decreases |src.rows| - q
  {
    if q == |src.rows| {
      return (s, p, Finished);
    }
    var p', s' := FillPage(src, n, dest, q0, q, p, s);
    if PageSize(|src.rows|, n, q) == n {
      GoesOn(src, n, q, p, s, fates, i, p', s');
      loop := PagesFill(src, n, dest, q0, q + n, p', s', fates, i + 1);
    } else {
      Ends(src, n, q, p, s, fates, i, p', s', Finished);
      loop := (s', p', Finished);
    }
  }

  /** A cursor that no destination row is beyond: behind it lies what the run will add. */
  lemma CursorLacks(src: Source, dest: set<Row>, cursor: Option<Key>)
    requires Stable(src) && dest <= Members(src.rows) && forall row :: row in dest ==> !Beyond(row, src.cols, cursor)
    ensures var q := Position(src.rows, src.cols, cursor);
      && Lacks(src, dest, q)
      && forall row :: row in Span(src.rows, q, |src.rows|) <==> row in src.rows && Beyond(row, src.cols, cursor)
  {
    var q := Position(src.rows, src.cols, cursor);
    PositionSplits(src.rows, src.cols, cursor);
    forall row
      ensures row in Span(src.rows, q, |src.rows|) <==> row in src.rows && Beyond(row, src.cols, cursor)
    {
      SpanHas(src.rows, q, |src.rows|, row);
    }
    forall row | row in dest
      ensures row in Span(src.rows, 0, q)
    {
      var i :| 0 <= i < |src.rows| && src.rows[i] == row;
      SpanHas(src.rows, 0, q, row);
    }
  }

  /** Every missing row lies beyond the cursor. */
  ghost predicate MissingBeyond(src: Source, dest: set<Row>, cursor: Option<Key>) {
    forall row :: row in src.rows ==> row in dest || Beyond(row, src.cols, cursor)
  }

  /** An undisturbed run from a cursor that no destination row is beyond adds all that is. */
  lemma RunFills(src: Source, n: nat, s: State, fates: seq<Fate>, cursor: Option<Key>, p: Progress)
    requires Stable(src) && n >= 1 && Clean(fates) && s.dest <= Members(src.rows) && !s.file.done
    requires StartOf(src, true, s) == (cursor, p) && forall row :: row in s.dest ==> !Beyond(row, src.cols, cursor)
    ensures var (s', outcome) := Run(src, n, true, s, fates, Completes);
      && outcome == Finished && s'.file.done && (p.keyColumns == src.cols ==> s'.file.keyColumns == src.cols)
      && (s'.dest == Members(src.rows) <==> MissingBeyond(src, s.dest, cursor))
  {
    var q := Position(src.rows, src.cols, cursor);
    CursorLacks(src, s.dest, cursor);
    assert s.dest + Span(src.rows, q, q) == s.dest;
    var loop := PagesFill(src, n, s.dest, q, q, p, s, fates, 0);
    var s' := Run(src, n, true, s, fates, Completes).0;
    assert s'.dest == Filled(src, s.dest, q, |src.rows|);
    assert forall row :: row in s'.dest <==> row in s.dest || (row in src.rows && Beyond(row, src.cols, cursor));
  }

  /** The entry has a cursor for the present key columns; one that was saved under another number of
      columns counts as well if it has as many values as there are columns now. */
  predicate Applies(p: Progress, cols: KeyColumns) {
    p.cursor != [] && |p.cursor| == |cols| && (p.keyColumns == cols || |p.keyColumns| != |cols|)
  }

  /** With a cursor that applies, and no destination row beyond it, a resumed run reports success in
      any case, and the destination is complete exactly when every missing row lies beyond it. */
  lemma CursorCompletesIff(src: Source, n: nat, s: State, fates: seq<Fate>)
    requires Stable(src) && n >= 1 && Clean(fates) && s.dest <= Members(src.rows)
    requires !s.file.done && Applies(s.file, src.cols)
    requires forall row :: row in s.dest ==> !Beyond(row, src.cols, Some(s.file.cursor))
    ensures var (s', outcome) := Run(src, n, true, s, fates, Completes);
      && outcome == Finished && s'.file.done
      && (s'.dest == Members(src.rows) <==> MissingBeyond(src, s.dest, Some(s.file.cursor)))
  {
    RunFills(src, n, s, fates, Some(s.file.cursor), s.file);
  }

  lemma TopIsLast(src: Source, dest: set<Row>, row: Row)
    requires Stable(src) && dest <= Members(src.rows) && row in dest
    ensures TopKey(dest, src.cols).Some? && !Beyond(row, src.cols, TopKey(dest, src.cols))
  {
    var i :| 0 <= i < |src.rows| && src.rows[i] == row;
    assert Fits(src.rows[i], src.cols);
  }

  /** With a checkpoint whose cursor does not apply, a resumed run reports success and marks the table
      done in any case, under the present key columns if the destination had rows, and the
      destination is complete exactly when every missing row lies beyond its greatest key. */
  lemma FallbackCompletesIff(src: Source, n: nat, s: State, fates: seq<Fate>)
    requires Stable(src) && n >= 1 && Clean(fates) && s.dest <= Members(src.rows)
    requires !s.file.done && s.file.rowsCopied > 0 && !Applies(s.file, src.cols)
    ensures var (s', outcome) := Run(src, n, true, s, fates, Completes);
      && outcome == Finished && s'.file.done && (s.dest != {} ==> s'.file.keyColumns == src.cols)
      && (s'.dest == Members(src.rows) <==> MissingBeyond(src, s.dest, TopKey(s.dest, src.cols)))
  {
    var (top, p) := StartOf(src, true, s);
    forall row | row in s.dest
      ensures top.Some? && !Beyond(row, src.cols, top)
    {
      TopIsLast(src, s.dest, row);
    }
    if row :| row in s.dest {
      assert p.keyColumns == src.cols;
    }
    RunFills(src, n, s, fates, top, p);
  }

  /** A table without a stable key is refused, and its destination is left alone. */
  lemma NoKeyNoCopy(src: Source, n: nat, resume: bool, s: State, fates: seq<Fate>, last: Fate)
    requires KeyOrdered(src.rows, src.cols) && n >= 1 && src.cols == []
    ensures var (s', outcome) := Run(src, n, resume, s, fates, last);
      s'.dest == s.dest && (outcome == NoStableKey <==> !(resume && s.file.done))
  {}

  /** Two rows whose order depends on the key: (1, 9) comes first by column 0 and last by column 1. */
  const BY_FIRST := Source([[1, 9], [2, 5]], [0], {[0], [1]})
  const BY_SECOND := Source([[2, 5], [1, 9]], [1], {[0], [1]})

  lemma ExampleStable()
    ensures Stable(BY_FIRST) && Stable(BY_SECOND) && Members(BY_FIRST.rows) == Members(BY_SECOND.rows)
  {
    var a, b := [1, 9], [2, 5];
    assert KeyOf(a, [0]) == [1] && KeyOf(b, [0]) == [2] && KeyOf(a, [1]) == [9] && KeyOf(b, [1]) == [5];
    assert !Clash(a, b, {[0], [1]}) && !Clash(b, a, {[0], [1]});
    assert BY_FIRST.rows == [a, b] && BY_SECOND.rows == [b, a];
    assert LexLess([1], [2]) && LexLess([5], [9]);
  }

  /** Copying the first row by column 0, stopping, and resuming after the key became column 1
      ends in reported success with the row (2, 5) missing. */
  lemma KeyChangeSkips(n: nat)
    requires n >= 1
    ensures KeyOrdered(BY_FIRST.rows, BY_FIRST.cols) && KeyOrdered(BY_SECOND.rows, BY_SECOND.cols)
    ensures var (stopped, _) := Run(BY_FIRST, 1, true, State({}, FRESH), [StopsSaved], Completes);
      var (s', outcome) := Run(BY_SECOND, n, true, stopped, [], Completes);
      outcome == Finished && s'.file.done && [2, 5] in BY_SECOND.rows && s'.dest != Members(BY_SECOND.rows)
  {
    ExampleStable();
    var c := Counts(0, 0, false);
    assert Status(BY_FIRST, c) == State({}, FRESH);
    RunCount(BY_FIRST, 1, true, c, [StopsSaved], Completes);
    assert PageSize(2, 1, 0) == 1;
    var stopped := Run(BY_FIRST, 1, true, State({}, FRESH), [StopsSaved], Completes).0;
    assert stopped == Status(BY_FIRST, Counts(1, 1, false));
    assert stopped.dest == {[1, 9]} && stopped.file == Progress(1, [0], [1], false) by {
      assert BY_FIRST.rows[..1] == [[1, 9]];
      assert KeyOf([1, 9], [0]) == [1];
    }
    FallbackCompletesIff(BY_SECOND, n, stopped, []);
    var top := TopKey({[1, 9]}, [1]);
    assert Fits([1, 9], [1]) && KeyOf([1, 9], [1]) == [9] && KeyOf([2, 5], [1]) == [5];
    assert top == Some([9]);
    assert !Beyond([2, 5], [1], top);
    assert BY_SECOND.rows[0] == [2, 5];
  }
}
