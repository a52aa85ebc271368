/** Exactly-once replay over every sequence of resumed runs and crashes. */
module ExactlyOnce {
  import opened Ordering
  import opened Wrappers
  import opened BinlogPosition
  import opened BinlogBatches
  import opened CommittedTransactions
  import opened BinlogApply
  import opened BinlogRun

  // ----- the effect of batches on the tables alone -----

  function TablesAfter(db: Database, batches: seq<Batch>): Result<Database, TxError>
    requires RowsOnly(batches)
    decreases |batches|
  {
    if batches == [] then Ok(db)
    else
      match TablesAfter(db, batches[..|batches| - 1])
      case Err(e) => Err(e)
      case Ok(t) => ExecEvents(t, batches[|batches| - 1].payload.events)
  }

  lemma {:induction false} CommitToTables(d: Durable, batches: seq<Batch>, k: nat)
    requires RowsOnly(batches) && k <= |batches| && CommitTo(d, batches, k).Ok?
    ensures TablesAfter(d.tables, batches[..k]) == Ok(CommitTo(d, batches, k).value.tables)
  {
    if k > 0 {
      CommitToTables(d, batches, k - 1);
      assert batches[..k][..k - 1] == batches[..k - 1];
    }
  }

  /** The checkpoint row is the end of the last batch. */
  lemma CommitToMark(d: Durable, batches: seq<Batch>, k: nat)
    requires RowsOnly(batches) && 0 < k <= |batches| && CommitTo(d, batches, k).Ok? && batches[k - 1].Count() > 0
    ensures CommitTo(d, batches, k).value.mark == Some(Mark(batches[k - 1].endFile, batches[k - 1].endPos))
  {}

  lemma {:induction false} TablesAppend(db: Database, a: seq<Batch>, b: seq<Batch>)
    requires RowsOnly(a) && RowsOnly(b) && TablesAfter(db, a).Ok?
    ensures RowsOnly(a + b) && TablesAfter(db, a + b) == TablesAfter(TablesAfter(db, a).value, b)
    decreases |b|
  {
    if b == [] {
      assert a + b == a;
    } else {
      var front := b[..|b| - 1];
      assert (a + b)[..|a + b| - 1] == a + front;
      TablesAppend(db, a, front);
    }
  }

  // ----- the first k batches are a stretch of the stream -----

  predicate EndsAt(b: Batch, e: StreamEvent) {
    b.endFile == e.file && b.endPos == e.pos
  }

  /** Any number of leading batches is what some prefix of the stream, cut where no transaction
      is open, commits; and the last of them ends at the last event of that prefix. */
  lemma {:induction false} LeadingBatches(events: seq<StreamEvent>, k: nat, c: Context) returns (i: nat)
    requires k <= |Committed(events, c)| && RowsOnly(Committed(events, c))
    ensures i <= |events| && CleanCut(events[..i], c)
    ensures Committed(events[..i], c) == Committed(events, c)[..k]
    ensures k == 0 ==> i == 0
    ensures k > 0 ==> i > 0 && EndsAt(Committed(events, c)[k - 1], events[i - 1])
    decreases |events|
  {
    if k == 0 {
      CutAtBoundary(events[..0], c);
      return 0;
    }
    var last := |events| - 1;
    var before, e := events[..last], events[last];
    var done, more := Committed(before, c), Completed(before, e, c);
    RowsOnlyParts(done, more);
    if k <= |done| {
      PrefixOfAppend(done, more, k);
      i := LeadingBatches(before, k, c);
      assert before[..i] == events[..i];
    } else {
      CompletedIsLast(before, e, c);
      i := |events|;
      WholeSlice(events);
      CutAtBoundary(events, c);
      WholeSlice(done + more);
    }
  }

  lemma RowsOnlyParts(a: seq<Batch>, b: seq<Batch>)
    requires RowsOnly(a + b)
    ensures RowsOnly(a) && RowsOnly(b)
  {
    assert forall i :: 0 <= i < |a| ==> a[i] == (a + b)[i];
    assert forall i :: 0 <= i < |b| ==> b[i] == (a + b)[|a| + i];
  }

  lemma CompletedIsLast(before: seq<StreamEvent>, e: StreamEvent, c: Context)
    requires Completed(before, e, c) != [] && Completed(before, e, c)[0].payload.RowPayload?
    ensures |Completed(before, e, c)| == 1
    ensures EndsAt(Completed(before, e, c)[0], e)
    ensures Boundary(e, c)
  {}

  // ----- exactly once -----

  /** The fixed surroundings of all runs: one server's log, in order, with live metadata that
      a restart reads the same way; DDL is not applied by the replay. */
  ghost predicate Surroundings(log: seq<StreamEvent>, base: string, s: Settings) {
    && Ordered(log, base) && SameMetadataPerKey(log, s.context)
    && Parsed(s.context) && s.context.opts.applyDdl != "apply"
  }

  lemma {:induction false} CommittedRowsOnly(events: seq<StreamEvent>, c: Context)
    requires c.opts.applyDdl != "apply"
    ensures RowsOnly(Committed(events, c))
    decreases |events|
  {
    if events != [] {
      CommittedRowsOnly(events[..|events| - 1], c);
    }
  }

  /** The effect of exactly the transactions that the events commit, each once, in order. */
  function Replayed(db: Database, events: seq<StreamEvent>, c: Context): Result<Database, TxError>
    requires c.opts.applyDdl != "apply"
  {
    CommittedRowsOnly(events, c);
    TablesAfter(db, Committed(events, c))
  }

  /** tables is db with exactly the committed transactions of [origin, c) applied, and no
      transaction is open at c. */
  ghost predicate Holds(log: seq<StreamEvent>, origin: nat, db: Database, c: Context, tables: Database, cut: nat) {
    && c.opts.applyDdl != "apply"
    && origin <= cut <= |log| && CleanCut(log[origin..cut], c)
    && Replayed(db, log[origin..cut], c) == Ok(tables)
  }

  /** The next run starts right behind the first cut events. */
  ghost predicate StartsAt(log: seq<StreamEvent>, w: World, explicit: Mark, cut: nat) {
    StartKnown(w, explicit) && CutAt(log, cut, StartOf(w, explicit, Mark("", 0)))
  }

  /** The destination holds db with exactly the committed transactions of [origin, cut) applied
      once each, and the next run goes on from there. */
  ghost predicate Synced(log: seq<StreamEvent>, origin: nat, db: Database, s: Settings, w: World, cut: nat) {
    Holds(log, origin, db, s.context, w.dest.tables, cut) && StartsAt(log, w, s.explicit, cut)
  }

  lemma ReplayedAppend(db: Database, a: seq<StreamEvent>, b: seq<StreamEvent>, c: Context)
    requires c.opts.applyDdl != "apply" && CleanCut(a, c) && Replayed(db, a, c).Ok?
    ensures Replayed(db, a + b, c) == Replayed(Replayed(db, a, c).value, b, c)
  {
    CommittedRowsOnly(a, c);
    CommittedRowsOnly(b, c);
    CommittedAppend(a, b, c);
    TablesAppend(db, Committed(a, c), Committed(b, c));
  }

  lemma CleanCutAppend(a: seq<StreamEvent>, b: seq<StreamEvent>, c: Context)
    requires CleanCut(a, c) && CleanCut(b, c)
    ensures CleanCut(a + b, c)
  {
    CommittedAppend(a, b, c);
  }

  /** What one window run over a stretch of the log does to the destination: it applies the
      committed transactions of some leading part of the stretch and marks its end. */
  lemma WindowAdvances(events: seq<StreamEvent>, c: Context, before: Durable, after: Durable, start: Mark, limit: nat,
                       runEnd: RunEnd, k: nat)
    returns (i: nat)
    requires c.opts.applyDdl != "apply"
    requires WindowRun(before, after, Committed(events, c), start, limit, runEnd, k)
    ensures i <= |events| && CleanCut(events[..i], c)
    ensures Replayed(before.tables, events[..i], c) == Ok(after.tables)
    ensures k == 0 ==> i == 0 && after == before
    ensures k > 0 ==> i > 0 && after.mark == Some(Mark(events[i - 1].file, events[i - 1].pos))
  {
    var batches := Committed(events, c);
    CommittedRowsOnly(events, c);
    i := LeadingBatches(events, k, c);
    CommitToTables(before, batches, k);
    if k > 0 {
      assert batches[k - 1] in batches;
      RowBatchIsTransaction(events, batches[k - 1], c);
      CommitToMark(before, batches, k);
    }
  }

  /** What a run loads, when loading succeeds, is what the events that it reads commit. */
  lemma LoadedIsCommitted(log: seq<StreamEvent>, start: Mark, end: Mark, context: Context, batches: seq<Batch>)
    returns (events: seq<StreamEvent>)
    requires Parsed(context) && LoadBatches(log, start, end, context) == Ok(batches)
    ensures events == [] || events == WindowOf(StreamFrom(log, start), end)
    ensures SameMetadataPerKey(events, context) ==> batches == Committed(events, context)
  {
    events := if PositionBefore(start.file, start.pos, end.file, end.pos) then WindowOf(StreamFrom(log, start), end)
      else [];
    if events != [] && SameMetadataPerKey(events, context) {
      BuildIsCommitted(events, context);
    }
  }

  /** The events that a run reads are a stretch of the log that begins at its cut. */
  lemma ReadStretch(log: seq<StreamEvent>, context: Context, c: nat, n: nat, start: Mark, end: Mark,
                    events: seq<StreamEvent>)
    returns (j: nat)
    requires SameMetadataPerKey(log, context) && CutAt(log, c, start) && n <= |log|
    requires events == [] || events == WindowOf(StreamFrom(log[..n], start), end)
    ensures c + j <= |log| && events == log[c..c + j] && SameMetadataPerKey(events, context)
  {
    if events == [] {
      j := 0;
      assert log[c..c] == [];
    } else {
      j := LoadedStretch(log, n, c, start, end);
    }
    SameMetadataPart(log, c, c + j, context);
  }

  /** Where the next run starts: behind the last committed transaction, or where this one did. */
  lemma NextStartsAt(log: seq<StreamEvent>, base: string, w: World, w': World, explicit: Mark, cut: nat, i: nat)
    requires Ordered(log, base) && StartsAt(log, w, explicit, cut) && cut + i <= |log|
    requires i == 0 ==> w'.dest == w.dest && (w'.json == w.json || w'.json == Some(StartOf(w, explicit, Mark("", 0))))
    requires i > 0 ==> w'.dest.mark == Some(Mark(log[cut + i - 1].file, log[cut + i - 1].pos))
    ensures StartsAt(log, w', explicit, cut + i)
  {
    if i == 0 {
      assert StartOf(w', explicit, Mark("", 0)) == StartOf(w, explicit, Mark("", 0));
    } else {
      CutBehind(log, base, cut + i - 1);
    }
  }

  lemma ReplayLater(db: Database, a: seq<StreamEvent>, b: seq<StreamEvent>, whole: seq<StreamEvent>, c: Context,
                    t: Database)
    requires c.opts.applyDdl != "apply" && whole == a + b && CleanCut(a, c) && CleanCut(b, c)
    requires Replayed(db, a, c) == Ok(t)
    ensures CleanCut(whole, c) && Replayed(db, whole, c) == Replayed(t, b, c)
  {
    ReplayedAppend(db, a, b, c);
    CleanCutAppend(a, b, c);
  }

  lemma HoldsLater(log: seq<StreamEvent>, origin: nat, db: Database, c: Context, t: Database, cut: nat, t': Database,
                   cut': nat)
    requires Holds(log, origin, db, c, t, cut) && cut <= cut' <= |log|
    requires CleanCut(log[cut..cut'], c) && Replayed(t, log[cut..cut'], c) == Ok(t')
    ensures Holds(log, origin, db, c, t', cut')
  {
    SliceAppend(log, origin, cut, cut');
    ReplayLater(db, log[origin..cut], log[cut..cut'], log[origin..cut'], c, t);
  }

  lemma SameEvents(a: seq<StreamEvent>, b: seq<StreamEvent>, c: Context, db: Database, t: Database)
    requires a == b && c.opts.applyDdl != "apply" && CleanCut(a, c) && Replayed(db, a, c) == Ok(t)
    ensures CleanCut(b, c) && Replayed(db, b, c) == Ok(t)
  {}

  /** A run over the batches that a stretch of the log commits, as a step from cut to cut'. */
  lemma WindowStep(log: seq<StreamEvent>, base: string, s: Settings, w: World, cut: nat, w': World, j: nat,
                   limit: nat, runEnd: RunEnd, k: nat)
    returns (cut': nat)
    requires Ordered(log, base) && s.context.opts.applyDdl != "apply" && cut + j <= |log|
    requires StartsAt(log, w, s.explicit, cut)
    requires WindowRun(w.dest, w'.dest, Committed(log[cut..cut + j], s.context), StartOf(w, s.explicit, Mark("", 0)),
      limit, runEnd, k)
    requires w'.json == w.json || (runEnd.Applied? && w'.json == Some(runEnd.end))
    ensures cut <= cut' <= |log| && StartsAt(log, w', s.explicit, cut')
    ensures CleanCut(log[cut..cut'], s.context)
      && Replayed(w.dest.tables, log[cut..cut'], s.context) == Ok(w'.dest.tables)
  {
    var start := StartOf(w, s.explicit, Mark("", 0));
    var i := WindowAdvances(log[cut..cut + j], s.context, w.dest, w'.dest, start, limit, runEnd, k);
    SliceOfSlice(log, cut, j, i);
    cut' := cut + i;
    SameEvents(log[cut..cut + j][..i], log[cut..cut'], s.context, w.dest.tables, w'.dest.tables);
    NextStartsAt(log, base, w, w', s.explicit, cut, i);
  }

  /** Every run, however it ends, keeps the destination in step and never moves back. */
  lemma RunAdvances(log: seq<StreamEvent>, base: string, origin: nat, db: Database, s: Settings, w: World, cut: nat,
                    w': World, n: nat, current: Mark, end: Mark, limit: nat)
    returns (cut': nat)
    requires Surroundings(log, base, s) && Synced(log, origin, db, s, w, cut) && n <= |log|
    requires RunStep(log[..n], w, w', s, current, end, limit)
    ensures cut <= cut' && Synced(log, origin, db, s, w', cut')
  {
    var start := StartOf(w, s.explicit, Mark("", 0));
    assert StartOf(w, s.explicit, current) == start;
    var loaded := LoadBatches(log[..n], start, end, s.context);
    if loaded.Err? {
      return cut;
    }
    var events := LoadedIsCommitted(log[..n], start, end, s.context, loaded.value);
    var j := ReadStretch(log, s.context, cut, n, start, end, events);
    var runEnd, k :| WindowRun(w.dest, w'.dest, loaded.value, start, limit, runEnd, k)
      && (w'.json == w.json || (runEnd.Applied? && w'.json == Some(runEnd.end)));
    cut' := WindowStep(log, base, s, w, cut, w', j, limit, runEnd, k);
    HoldsLater(log, origin, db, s.context, w.dest.tables, cut, w'.dest.tables, cut');
  }

  /** One resumed run over some visible part of the log, with any limit and any ending. */
  ghost predicate SomeRun(log: seq<StreamEvent>, s: Settings, w: World, w': World) {
    exists n: nat, current, end, limit :: n <= |log| && RunStep(log[..n], w, w', s, current, end, limit)
  }

  lemma SomeRunAdvances(log: seq<StreamEvent>, base: string, origin: nat, db: Database, s: Settings, w: World, c: nat,
                        w': World)
    returns (c': nat)
    requires Surroundings(log, base, s) && Synced(log, origin, db, s, w, c) && SomeRun(log, s, w, w')
    ensures c <= c' && Synced(log, origin, db, s, w', c')
  {
    var n: nat, current, end, limit :| n <= |log| && RunStep(log[..n], w, w', s, current, end, limit);
    c' := RunAdvances(log, base, origin, db, s, w, c, w', n, current, end, limit);
  }

  ghost predicate AllRuns(log: seq<StreamEvent>, s: Settings, history: seq<World>) {
    forall i {:trigger SomeRun(log, s, history[i - 1], history[i])} ::
      0 < i < |history| ==> SomeRun(log, s, history[i - 1], history[i])
  }

  /** Exactly once: over any sequence of resumed runs and crashes, from a synchronised base with
      a known start, the destination always holds the base with exactly the committed
      transactions up to its own checkpoint applied, each once, in commit order. */
  lemma {:induction false} ExactlyOnceOverRuns(log: seq<StreamEvent>, base: string, origin: nat, s: Settings,
                                               history: seq<World>, i: nat)
    returns (cut: nat)
    requires i < |history| && Surroundings(log, base, s) && AllRuns(log, s, history)
    requires Synced(log, origin, history[0].dest.tables, s, history[0], origin)
    ensures Synced(log, origin, history[0].dest.tables, s, history[i], cut)
    decreases i
  {
    if i == 0 {
      return origin;
    }
    cut := ExactlyOnceOverRuns(log, base, origin, s, history, i - 1);
    assert SomeRun(log, s, history[i - 1], history[i]);
    cut := SomeRunAdvances(log, base, origin, history[0].dest.tables, s, history[i - 1], cut, history[i]);
  }
}
