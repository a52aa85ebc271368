/** What exactly-once replay is good for: the destination is an image of the source; limits
    only slow a replay down; and without a known start the guarantee is lost. */
module ReplayGoals {
  import opened Ordering
  import opened Wrappers
  import opened RowReplay
  import opened BinlogBatches
  import opened CommittedTransactions
  import opened BinlogApply
  import opened BinlogRun
  import opened ExactlyOnce

  // ----- the destination is the source's image -----

  /** The source's tables: as committed, and as the open transaction sees them. */
  datatype Source = Source(committed: Database, working: Database)

  /** The row event can have happened to the working tables. */
  ghost predicate RowEventPossible(db: Database, e: StreamEvent, c: Context)
    requires e.kind.RowsEvent?
  {
    var name := (e.schema, e.table);
    && name in db && c.loader(e.schema, e.table) == Some(db[name].meta)
    && db[name].Valid() && AllPossible(db[name], Changes(e.kind.rowKind, e.rows))
    && (e.kind.rowKind != WriteRows ==> db[name].Keyed?)
    && (e.kind.rowKind == UpdateRows ==> |e.rows| % 2 == 0)
  }

  /** What the source did when it wrote one event; None if it cannot have written it. */
  ghost function SourceStep(s: Source, e: StreamEvent, c: Context): Option<Source> {
    match RoleOf(e, c.opts)
    case CommitPoint => Some(Source(s.working, s.working))
    case RollbackPoint => Some(Source(s.committed, s.committed))
    case RowData =>
      if RowEventPossible(s.working, e, c) then
        var name := (e.schema, e.table);
        var after := AfterChanges(s.working[name], Changes(e.kind.rowKind, e.rows));
        Some(s.(working := s.working[name := after]))
      else None
    case _ => Some(s)
  }

  ghost function SourceAfter(db: Database, events: seq<StreamEvent>, c: Context): Option<Source>
    decreases |events|
  {
    if events == [] then Some(Source(db, db))
    else
      var before := SourceAfter(db, events[..|events| - 1], c);
      if before.None? then None else SourceStep(before.value, events[|events| - 1], c)
  }

  lemma {:induction false} ExecAppend(db: Database, a: seq<ApplyEvent>, b: seq<ApplyEvent>)
    requires ExecEvents(db, a).Ok?
    ensures ExecEvents(db, a + b) == ExecEvents(ExecEvents(db, a).value, b)
    decreases |a|
  {
    if a == [] {
      assert a + b == b;
    } else {
      var e := a[0];
      assert (a + b)[1..] == a[1..] + b;
      ExecAppend(db[(e.schema, e.table) := Exec(db[(e.schema, e.table)], e.statement).table], a[1..], b);
    }
  }

  /** Statements for one table act on the database as they act on the table. */
  lemma {:induction false} ExecOneTable(db: Database, name: Name, events: seq<ApplyEvent>)
    requires name in db && ExecAll(db[name], events).Finished?
    requires forall i :: 0 <= i < |events| ==> (events[i].schema, events[i].table) == name
    ensures ExecEvents(db, events) == Ok(db[name := ExecAll(db[name], events).table])
    decreases |events|
  {
    if events == [] {
      assert db[name := db[name]] == db;
    } else {
      var t := Exec(db[name], events[0].statement).table;
      ExecOneTable(db[name := t], name, events[1..]);
      assert db[name := t][name := ExecAll(t, events[1..]).table] == db[name := ExecAll(t, events[1..]).table];
    }
  }

  lemma {:induction false} CompiledForTable(kind: RowEventKind, schema: string, table: string, rows: seq<Row>,
                                            m: Metadata, policy: ConflictPolicy)
    requires CompileAll(kind, schema, table, rows, m, policy).Ok?
    ensures var events := CompileAll(kind, schema, table, rows, m, policy).value;
      forall i :: 0 <= i < |events| ==> (events[i].schema, events[i].table) == (schema, table)
    decreases |rows|
  {
    if |rows| >= Stride(kind) {
      CompiledForTable(kind, schema, table, rows[Stride(kind)..], m, policy);
    }
  }

  lemma RowEventReplays(db: Database, e: StreamEvent, c: Context)
    requires RoleOf(e, c.opts) == RowData && RowEventPossible(db, e, c)
    ensures var name := (e.schema, e.table);
      ExecEvents(db, StatementsOf(e, c)) == Ok(db[name := AfterChanges(db[name], Changes(e.kind.rowKind, e.rows))])
  {
    var name := (e.schema, e.table);
    CompileMeaning(e.kind.rowKind, e.schema, e.table, e.rows, db[name], c.policy);
    CompiledForTable(e.kind.rowKind, e.schema, e.table, e.rows, db[name].meta, c.policy);
    ExecOneTable(db, name, StatementsOf(e, c));
  }

  lemma NoStatements(e: StreamEvent, c: Context)
    requires RoleOf(e, c.opts) != RowData
    ensures StatementsOf(e, c) == []
  {}

  /** A row event that the source could write extends what is open. */
  lemma RowsReplay(s: Source, open: seq<ApplyEvent>, e: StreamEvent, s': Source, c: Context)
    requires RoleOf(e, c.opts) == RowData && SourceStep(s, e, c) == Some(s')
      && ExecEvents(s.committed, open) == Ok(s.working)
    ensures ExecEvents(s.committed, open + StatementsOf(e, c)) == Ok(s'.working) && s'.committed == s.committed
  {
    RowEventReplays(s.working, e, c);
    ExecAppend(s.committed, open, StatementsOf(e, c));
  }

  /** What is open after one more event, replayed on top of what is committed. */
  lemma OpenReplays(s: Source, before: seq<StreamEvent>, e: StreamEvent, s': Source, c: Context)
    requires c.opts.applyDdl != "apply" && SourceStep(s, e, c) == Some(s')
    requires ExecEvents(s.committed, Open(before, c)) == Ok(s.working)
    ensures ExecEvents(s'.committed, Open(before + [e], c)) == Ok(s'.working)
    ensures s'.committed == if RoleOf(e, c.opts) == CommitPoint then s.working else s.committed
  {
    OpenOneMore(before, e, c);
    var open := Open(before, c);
    if RoleOf(e, c.opts) == RowData {
      RowsReplay(s, open, e, s', c);
    } else {
      NoStatements(e, c);
      assert open + [] == open;
    }
  }

  /** Replaying what the events commit gives the source's committed tables; replaying what is
      open on top gives what the open transaction sees. */
  lemma {:induction false} ReplayIsSource(db: Database, events: seq<StreamEvent>, c: Context)
    requires c.opts.applyDdl != "apply" && SourceAfter(db, events, c).Some?
    ensures Replayed(db, events, c) == Ok(SourceAfter(db, events, c).value.committed)
    ensures ExecEvents(SourceAfter(db, events, c).value.committed, Open(events, c))
      == Ok(SourceAfter(db, events, c).value.working)
    decreases |events|
  {
    if events == [] {
      CommittedRowsOnly(events, c);
      assert events[OpenedAt(events, c)..] == [];
    } else {
      var last := |events| - 1;
      var before, e := events[..last], events[last];
      SplitLast(events);
      ReplayIsSource(db, before, c);
      var s, s' := SourceAfter(db, before, c).value, SourceAfter(db, events, c).value;
      ReplayOneMore(db, before, e, s, c);
      OpenReplays(s, before, e, s', c);
    }
  }

  /** The effect of one more event on the replayed tables. */
  lemma ReplayOneMore(db: Database, before: seq<StreamEvent>, e: StreamEvent, s: Source, c: Context)
    requires c.opts.applyDdl != "apply" && Replayed(db, before, c) == Ok(s.committed)
    requires ExecEvents(s.committed, Open(before, c)) == Ok(s.working)
    ensures Replayed(db, before + [e], c) == Ok(if RoleOf(e, c.opts) == CommitPoint then s.working else s.committed)
  {
    OpenOneMore(before, e, c);
    CommittedRowsOnly(before, c);
    CommittedRowsOnly(before + [e], c);
    var done, more := Committed(before, c), Completed(before, e, c);
    assert RowsOnly(more) by {
      RowsOnlyParts(done, more);
    }
    TablesAppend(db, done, more);
    if more != [] {
      CompletedIsLast(before, e, c);
      assert more[..0] == [] && TablesAfter(s.committed, []) == Ok(s.committed);
    }
  }

  /** In every reachable state of a valid replay the destination equals the source's committed
      tables at the destination's checkpoint, whatever the conflict policy. */
  lemma DestinationIsSourceImage(log: seq<StreamEvent>, origin: nat, db: Database, s: Settings, w: World, cut: nat)
    requires Synced(log, origin, db, s, w, cut) && SourceAfter(db, log[origin..cut], s.context).Some?
    ensures w.dest.tables == SourceAfter(db, log[origin..cut], s.context).value.committed
  {
    ReplayIsSource(db, log[origin..cut], s.context);
  }

  // ----- the start must be known -----

  lemma CutUnique(log: seq<StreamEvent>, c: nat, d: nat, m: Mark)
    requires CutAt(log, c, m) && CutAt(log, d, m)
    ensures c == d
  {
    assert (c < |log| ==> After(log[c], m)) && (d < |log| ==> After(log[d], m));
  }

  /** A run that asks the source where to start when the first e events are written. */
  ghost predicate FirstRun(log: seq<StreamEvent>, s: Settings, w: World, w': World, e: nat)
    requires 0 < e <= |log|
  {
    var m := Mark(log[e - 1].file, log[e - 1].pos);
    StartOf(w, s.explicit, m) == m && RunStep(log[..e], w, w', s, m, m, 0)
  }

  /** Without a known start a first run that dies before saving leaves no trace, and the second
      starts where the source has got to meanwhile. What committed in between is never applied:
      the second start holds the base as of e2, not as of e1, and if a transaction in between
      changes the tables, no cut of the log explains them any more. */
  lemma UnknownStartLoses(log: seq<StreamEvent>, base: string, s: Settings, w: World, e1: nat, e2: nat)
    returns (w2: World)
    requires Surroundings(log, base, s) && !StartKnown(w, s.explicit) && w.dest.mark == None && e1 < e2 <= |log|
    requires Replayed(w.dest.tables, log[e1..e2], s.context) != Ok(w.dest.tables)
    ensures (e1 > 0 ==> FirstRun(log, s, w, w, e1)) && FirstRun(log, s, w, w2, e2) && StartKnown(w2, s.explicit)
    ensures SomeRun(log, s, w, w) && SomeRun(log, s, w, w2)
    ensures Synced(log, e2, w.dest.tables, s, w2, e2)
    ensures forall cut :: !Synced(log, e1, w.dest.tables, s, w2, cut)
  {
    w2 := World(w.dest, Some(Mark(log[e2 - 1].file, log[e2 - 1].pos)));
    if e1 > 0 {
      NothingToDo(log, s, w, w, e1);
    }
    NothingToDo(log, s, w, w, e2);
    NothingToDo(log, s, w, w2, e2);
    LateStart(log, base, s, w, w2, e1, e2);
  }

  lemma LateStart(log: seq<StreamEvent>, base: string, s: Settings, w: World, w2: World, e1: nat, e2: nat)
    requires Surroundings(log, base, s) && !StartKnown(w, s.explicit) && w.dest.mark == None && e1 < e2 <= |log|
    requires w2 == World(w.dest, Some(Mark(log[e2 - 1].file, log[e2 - 1].pos)))
    requires Replayed(w.dest.tables, log[e1..e2], s.context) != Ok(w.dest.tables)
    ensures StartKnown(w2, s.explicit) && Synced(log, e2, w.dest.tables, s, w2, e2)
    ensures forall cut :: !Synced(log, e1, w.dest.tables, s, w2, cut)
  {
    var m2 := Mark(log[e2 - 1].file, log[e2 - 1].pos);
    CutBehind(log, base, e2 - 1);
    assert StartsAt(log, w2, s.explicit, e2);
    HoldsAtOnce(log, e2, w.dest.tables, s.context);
    forall cut | Synced(log, e1, w.dest.tables, s, w2, cut)
      ensures false
    {
      CutUnique(log, cut, e2, m2);
    }
  }

  lemma HoldsAtOnce(log: seq<StreamEvent>, origin: nat, db: Database, c: Context)
    requires c.opts.applyDdl != "apply" && origin <= |log|
    ensures ExactlyOnce.Holds(log, origin, db, c, db, origin)
  {
    assert log[origin..origin] == [];
    CutAtBoundary([], c);
    CommittedRowsOnly([], c);
  }

  /** Over all histories from w, whenever the next start is known, the destination holds the base
      with exactly the transactions committed since origin, up to that start. */
  ghost predicate AlwaysInStep(log: seq<StreamEvent>, origin: nat, s: Settings, w: World) {
    forall history: seq<World>, i: nat {:trigger AllRuns(log, s, history), history[i]} ::
      i < |history| && history[0] == w && AllRuns(log, s, history) && StartKnown(history[i], s.explicit)
      ==> exists cut :: Synced(log, origin, w.dest.tables, s, history[i], cut)
  }

  /** A base that was level with the source at origin, in front of some change that is still to
      come, stays in step in every history exactly when the first start is known. */
  lemma InStepIffStartKnown(log: seq<StreamEvent>, base: string, origin: nat, s: Settings, w: World, e: nat)
    requires Surroundings(log, base, s) && origin < e <= |log|
    requires Replayed(w.dest.tables, log[origin..e], s.context) != Ok(w.dest.tables)
    requires w.dest.mark.Some? ==> w.dest.mark.value.file != ""
    requires StartKnown(w, s.explicit) ==> StartsAt(log, w, s.explicit, origin)
    ensures AlwaysInStep(log, origin, s, w) <==> StartKnown(w, s.explicit)
  {
    if StartKnown(w, s.explicit) {
      HoldsAtOnce(log, origin, w.dest.tables, s.context);
      forall history: seq<World>, i: nat | i < |history| && history[0] == w && AllRuns(log, s, history)
        ensures exists cut :: Synced(log, origin, w.dest.tables, s, history[i], cut)
      {
        var cut := ExactlyOnceOverRuns(log, base, origin, s, history, i);
      }
    } else {
      var w2 := UnknownStartLoses(log, base, s, w, origin, e);
      var history := [w, w2];
      assert AllRuns(log, s, history) && history[1] == w2;
    }
  }

  lemma NothingToDo(log: seq<StreamEvent>, s: Settings, w: World, w': World, e: nat)
    requires !StartKnown(w, s.explicit) && 0 < e <= |log|
    requires w'.dest == w.dest && (w'.json == w.json || w'.json == Some(Mark(log[e - 1].file, log[e - 1].pos)))
    ensures FirstRun(log, s, w, w', e) && SomeRun(log, s, w, w')
  {
    var m := Mark(log[e - 1].file, log[e - 1].pos);
    assert LoadBatches(log[..e], StartOf(w, s.explicit, m), m, s.context) == Ok([]);
    assert WindowRun(w.dest, w'.dest, [], m, 0, Applied(m, 0), 0);
    assert RunStep(log[..e], w, w', s, m, m, 0);
  }
}
