/** Runs that start from a GTID set. Such a run stores the set that the source has when the run
    ends, not the set of what it applied: when that is right, and what is lost otherwise. */
module GtidRun {
  import opened Ordering
  import opened Wrappers
  import opened RowReplay
  import opened BinlogPosition
  import opened BinlogBatches
  import opened CommittedTransactions
  import opened BuildOutcome
  import opened BinlogApply
  import opened BinlogRun
  import opened ExactlyOnce
  import opened CleanRuns

  /** What survives between runs: the destination, and the set in the checkpoint file. The sets of
      one server are the beginnings of its log, so a set is the number of events that it covers.
      For the theorems only, applied lists the transactions that the destination holds. */
  datatype GtidWorld = GtidWorld(dest: Durable, gtid: Option<nat>, applied: seq<Batch>)

  /** The fixed options: --gtid-set, and --start-file with --start-pos, which need not be given. */
  datatype GtidSettings = GtidSettings(explicitSet: nat, explicit: Mark, context: Context)

  function SetOf(w: GtidWorld, s: GtidSettings): nat {
    if w.gtid.Some? then w.gtid.value else s.explicitSet
  }

  /** The events that a run reads: those behind the set, up to the end of the window. */
  function Streamed(log: seq<StreamEvent>, from: nat, start: Mark, end: Mark): (events: seq<StreamEvent>)
    requires from <= |log|
  {
    if PositionBefore(start.file, start.pos, end.file, end.pos) then WindowOf(log[from..], end) else []
  }

  function LoadFromSet(log: seq<StreamEvent>, from: nat, start: Mark, end: Mark, c: Context): Result<seq<Batch>,
    BuildError>
    requires from <= |log|
  {
    var events := Streamed(log, from, start, end);
    if events == [] then Ok([]) else Build(events, c.opts, c.loader)
  }

  /** How a run went: its end position and limit, how it ended behind k durable batches, and the
      source's set, if it was read and saved. */
  datatype Turn = Turn(end: Mark, limit: nat, runEnd: RunEnd, k: nat, saved: Option<nat>)

  /** One resumed run over the visible log, whatever ended it. */
  ghost predicate GtidStep(log: seq<StreamEvent>, s: GtidSettings, w: GtidWorld, turn: Turn, w': GtidWorld) {
    SetOf(w, s) <= |log|
    && match LoadFromSet(log, SetOf(w, s), s.explicit, turn.end, s.context)
       case Err(_) => w' == w && turn.k == 0 && turn.saved == None
       case Ok(batches) =>
         && WindowRun(w.dest, w'.dest, batches, s.explicit, turn.limit, turn.runEnd, turn.k)
         && w'.applied == w.applied + batches[..turn.k]
         && (turn.saved.Some? ==> turn.runEnd.Applied?)
         && w'.gtid == if turn.saved.Some? then turn.saved else w.gtid
  }

  method LoadApplyBatchesFromSet(log: seq<StreamEvent>, from: nat, start: Mark, end: Mark, c: Context)
    returns (r: Result<seq<Batch>, BuildError>)
    requires from <= |log| && c.opts.applyDdl != "apply" && Parsed(c)
    ensures r == LoadFromSet(log, from, start, end, c)
    ensures r.Ok? ==> RowsOnly(r.value)
  {
    if !PositionBefore(start.file, start.pos, end.file, end.pos) {
      return Ok([]);
    }
    var events := StreamWindow(log[from..], end);
    if events == [] {
      return Ok([]);
    }
    r := BuildApplyBatches(events, c.opts, c.loader);
    if r.Ok? {
      FoldRowsOnly(EMPTY, events, c);
    }
  }

  /** The tool in GTID mode: the destination it writes to and the set in its checkpoint file. */
  class GtidReplicator {
    const dest: Destination
    var gtid: Option<nat>
    ghost var applied: seq<Batch>

    constructor (dest: Destination, ghost applied: seq<Batch>)
      ensures this.dest == dest && gtid == None && this.applied == applied
    {
      this.dest, gtid, this.applied := dest, None, applied;
    }

    ghost function State(): GtidWorld
      reads this, dest
    {
      GtidWorld(dest.State(), gtid, applied)
    }

    /** Run with --resume and --gtid-set. queryEnd and querySet are the source's position, read
        before the batches are loaded, and its set, read behind the last commit; both may fail. */
    method Run(log: seq<StreamEvent>, s: GtidSettings, queryEnd: Option<Mark>, querySet: Option<nat>, limit: nat,
               faults: seq<Fault>, saved: bool) returns (ok: bool, ghost turn: Turn)
      requires s.context.opts.applyDdl != "apply" && Parsed(s.context) && SetOf(State(), s) <= |log|
      modifies this, dest
      ensures GtidStep(log, s, old(State()), turn, State())
      ensures turn.end == (if queryEnd.Some? then queryEnd.value else s.explicit) && turn.limit == limit
      ensures turn.saved == if ok then querySet else None
      ensures ok ==> saved && turn.runEnd.Applied?
    {
      var from := if gtid.Some? then gtid.value else s.explicitSet;
      var end := if queryEnd.Some? then queryEnd.value else s.explicit;
      turn := Turn(end, limit, Crashed, 0, None);
      var loaded := LoadApplyBatchesFromSet(log, from, s.explicit, end, s.context);
      if loaded.Err? {
        return false, turn;
      }
      var runEnd, k := dest.ApplyWindow(loaded.value, s.explicit, limit, faults);
      applied := applied + loaded.value[..k];
      turn := Turn(end, limit, runEnd, k, None);
      if !runEnd.Applied? || !saved {
        return false, turn;
      }
      if querySet.Some? {
        gtid := querySet;
      }
      return true, turn.(saved := querySet);
    }
  }

  /** What a run reads: nothing unless the given start lies before the end of the window, and then all
      events behind the set that do not end beyond that. */
  lemma StreamedIs(log: seq<StreamEvent>, base: string, from: nat, start: Mark, end: Mark, first: nat, last: nat)
    returns (e: nat)
    requires Ordered(log, base) && from <= |log| && InLog(start, base, first) && InLog(end, base, last)
    ensures from <= e <= |log| && Streamed(log, from, start, end) == log[from..e]
    ensures if PositionLess(Position(first, start.pos), Position(last, end.pos))
            then UpTo(log, from, e, Position(last, end.pos)) else e == from
  {
    PositionTests(base, Position(first, start.pos), Position(last, end.pos));
    if PositionBefore(start.file, start.pos, end.file, end.pos) {
      e := WindowIs(log, base, from, end, last);
    } else {
      e := from;
    }
  }

  // ----- when a run keeps the set in step -----

  /** The log and its metadata; DDL is not applied by the replay. */
  ghost predicate Readable(log: seq<StreamEvent>, s: GtidSettings) {
    SameMetadataPerKey(log, s.context) && Parsed(s.context) && s.context.opts.applyDdl != "apply"
  }

  /** The set from which the next run starts covers exactly the transactions that the destination holds. */
  ghost predicate InStep(log: seq<StreamEvent>, s: GtidSettings, w: GtidWorld) {
    var g := SetOf(w, s);
    g <= |log| && CleanCut(log[..g], s.context) && w.applied == Committed(log[..g], s.context)
  }

  /** Where the events that a run read end. */
  function ReadTo(log: seq<StreamEvent>, s: GtidSettings, w: GtidWorld, end: Mark): nat
    requires SetOf(w, s) <= |log|
  {
    SetOf(w, s) + |Streamed(log, SetOf(w, s), s.explicit, end)|
  }

  lemma StreamedStretch(log: seq<StreamEvent>, from: nat, start: Mark, end: Mark) returns (e: nat)
    requires from <= |log|
    ensures e == from + |Streamed(log, from, start, end)| && e <= |log|
      && Streamed(log, from, start, end) == log[from..e]
  {
    WindowIsPrefix(log[from..], end);
    e := from + |Streamed(log, from, start, end)|;
  }

  /** What a run loads is what the events [from, e) commit, and nothing is open at e. */
  lemma SetLoads(log: seq<StreamEvent>, seen: nat, s: GtidSettings, from: nat, end: Mark, batches: seq<Batch>)
    returns (e: nat)
    requires Readable(log, s) && from <= seen <= |log|
      && LoadFromSet(log[..seen], from, s.explicit, end, s.context) == Ok(batches)
    ensures e == from + |Streamed(log[..seen], from, s.explicit, end)| && e <= seen
    ensures batches == Committed(log[from..e], s.context) && CleanCut(log[from..e], s.context)
  {
    e := StreamedStretch(log[..seen], from, s.explicit, end);
    assert log[..seen][from..e] == log[from..e];
    if from < e {
      SameMetadataPart(log, from, e, s.context);
      BuildIsCommitted(log[from..e], s.context);
    } else {
      CutAtBoundary(log[from..e], s.context);
    }
  }

  /** Cutting at a point where nothing is open. */
  lemma CommittedSplit(log: seq<StreamEvent>, i: nat, j: nat, k: nat, c: Context)
    requires i <= j <= k <= |log| && CleanCut(log[i..j], c)
    ensures Committed(log[i..k], c) == Committed(log[i..j], c) + Committed(log[j..k], c)
    ensures CleanCut(log[i..k], c) <==> CleanCut(log[j..k], c)
  {
    SliceAppend(log, i, j, k);
    CommittedAppend(log[i..j], log[j..k], c);
  }

  /** A run keeps the set in step when it ends before its save without a durable batch, or when it
      applied all that it loaded and nothing committed between its end and the set that it saved. */
  ghost predicate Whole(log: seq<StreamEvent>, seen: nat, s: GtidSettings, w: GtidWorld, turn: Turn)
    requires SetOf(w, s) <= seen <= |log|
  {
    var loaded := LoadFromSet(log[..seen], SetOf(w, s), s.explicit, turn.end, s.context);
    var e := ReadTo(log[..seen], s, w, turn.end);
    if turn.saved == None then turn.k == 0
    else loaded.Ok? && turn.k == |loaded.value| && e <= turn.saved.value <= |log|
         && Committed(log[e..turn.saved.value], s.context) == []
  }

  /** The source's set covers whole transactions and at least what the run read. */
  ghost predicate SourceSet(log: seq<StreamEvent>, seen: nat, s: GtidSettings, w: GtidWorld, turn: Turn)
    requires SetOf(w, s) <= seen <= |log|
  {
    turn.saved.Some? ==>
      ReadTo(log[..seen], s, w, turn.end) <= turn.saved.value <= |log| && CleanCut(log[..turn.saved.value], s.context)
  }

  lemma UnsavedKeepsIff(log: seq<StreamEvent>, s: GtidSettings, w: GtidWorld, w': GtidWorld, batches: seq<Batch>,
                        k: nat)
    requires InStep(log, s, w) && k <= |batches| && w'.gtid == w.gtid && w'.applied == w.applied + batches[..k]
    ensures InStep(log, s, w') <==> k == 0
  {
    assert |w.applied + batches[..k]| == |w.applied| + k;
  }

  /** What the transactions up to the saved set n are, beside what was applied. */
  lemma SavedKeepsIff(log: seq<StreamEvent>, c: Context, g: nat, e: nat, n: nat, applied: seq<Batch>,
                      batches: seq<Batch>, k: nat)
    requires g <= e <= n <= |log| && k <= |batches|
    requires CleanCut(log[..g], c) && applied == Committed(log[..g], c)
    requires CleanCut(log[g..e], c) && batches == Committed(log[g..e], c)
    ensures applied + batches[..k] == Committed(log[..n], c) <==> k == |batches| && Committed(log[e..n], c) == []
  {
    var more := Committed(log[e..n], c);
    assert log[0..g] == log[..g] && log[0..n] == log[..n];
    CommittedSplit(log, 0, g, n, c);
    CommittedSplit(log, g, e, n, c);
    SameListIff(applied, batches, more, k);
  }

  lemma SameListIff(applied: seq<Batch>, batches: seq<Batch>, more: seq<Batch>, k: nat)
    requires k <= |batches|
    ensures applied + batches[..k] == applied + (batches + more) <==> k == |batches| && more == []
  {
    assert |applied + batches[..k]| == |applied| + k && |applied + (batches + more)| == |applied| + |batches| + |more|;
    if k == |batches| && more == [] {
      assert batches[..k] == batches && batches + more == batches;
    }
  }

  lemma SavedInStepIff(log: seq<StreamEvent>, s: GtidSettings, w: GtidWorld, w': GtidWorld, e: nat, n: nat,
                       batches: seq<Batch>, k: nat)
    requires InStep(log, s, w) && SetOf(w, s) <= e <= n <= |log| && k <= |batches|
    requires CleanCut(log[SetOf(w, s)..e], s.context) && batches == Committed(log[SetOf(w, s)..e], s.context)
    requires w'.gtid == Some(n) && w'.applied == w.applied + batches[..k] && CleanCut(log[..n], s.context)
    ensures InStep(log, s, w') <==> k == |batches| && Committed(log[e..n], s.context) == []
  {
    SavedKeepsIff(log, s.context, SetOf(w, s), e, n, w.applied, batches, k);
  }

  lemma WholeIs(log: seq<StreamEvent>, seen: nat, s: GtidSettings, w: GtidWorld, turn: Turn, e: nat,
                batches: seq<Batch>)
    requires SetOf(w, s) <= seen <= |log|
      && LoadFromSet(log[..seen], SetOf(w, s), s.explicit, turn.end, s.context) == Ok(batches)
    requires e == ReadTo(log[..seen], s, w, turn.end) && turn.saved.Some? && e <= turn.saved.value <= |log|
    ensures Whole(log, seen, s, w, turn)
      <==> turn.k == |batches| && Committed(log[e..turn.saved.value], s.context) == []
  {}

  lemma SavedStepKeepsIff(log: seq<StreamEvent>, seen: nat, s: GtidSettings, w: GtidWorld, turn: Turn, w': GtidWorld,
                          batches: seq<Batch>)
    requires Readable(log, s) && InStep(log, s, w) && SetOf(w, s) <= seen <= |log|
    requires LoadFromSet(log[..seen], SetOf(w, s), s.explicit, turn.end, s.context) == Ok(batches)
    requires turn.k <= |batches| && w'.applied == w.applied + batches[..turn.k] && w'.gtid == turn.saved
      && turn.saved.Some?
    requires SourceSet(log, seen, s, w, turn)
    ensures InStep(log, s, w') <==> Whole(log, seen, s, w, turn)
  {
    var e := SetLoads(log, seen, s, SetOf(w, s), turn.end, batches);
    SavedInStepIff(log, s, w, w', e, turn.saved.value, batches, turn.k);
    WholeIs(log, seen, s, w, turn, e, batches);
  }

  /** Exactly then. */
  lemma StepKeepsIff(log: seq<StreamEvent>, seen: nat, s: GtidSettings, w: GtidWorld, turn: Turn, w': GtidWorld)
    requires Readable(log, s) && InStep(log, s, w) && SetOf(w, s) <= seen <= |log|
    requires GtidStep(log[..seen], s, w, turn, w') && SourceSet(log, seen, s, w, turn)
    ensures InStep(log, s, w') <==> Whole(log, seen, s, w, turn)
  {
    var loaded := LoadFromSet(log[..seen], SetOf(w, s), s.explicit, turn.end, s.context);
    if loaded.Ok? {
      if turn.saved.Some? {
        SavedStepKeepsIff(log, seen, s, w, turn, w', loaded.value);
      } else {
        UnsavedKeepsIff(log, s, w, w', loaded.value, turn.k);
      }
    }
  }

  // ----- any number of runs -----

  /** The destination's tables are db with exactly the listed transactions applied, in order. */
  ghost predicate HoldsApplied(db: Database, w: GtidWorld) {
    RowsOnly(w.applied) && TablesAfter(db, w.applied) == Ok(w.dest.tables)
  }

  lemma StepHoldsApplied(log: seq<StreamEvent>, s: GtidSettings, db: Database, w: GtidWorld, turn: Turn, w': GtidWorld)
    requires GtidStep(log, s, w, turn, w') && HoldsApplied(db, w)
    ensures HoldsApplied(db, w')
  {
    var loaded := LoadFromSet(log, SetOf(w, s), s.explicit, turn.end, s.context);
    if loaded.Ok? {
      CommitToTables(w.dest, loaded.value, turn.k);
      TablesAppend(db, w.applied, loaded.value[..turn.k]);
    }
  }

  /** Runs one after the other, each with as much of the log as it saw. */
  datatype Past = Past(seen: seq<nat>, turns: seq<Turn>, worlds: seq<GtidWorld>) {
    predicate Lengths() {
      |seen| == |turns| && |worlds| == |turns| + 1
    }
  }

  ghost predicate StepAt(log: seq<StreamEvent>, s: GtidSettings, past: Past, i: nat)
    requires past.Lengths() && i < |past.turns|
  {
    && SetOf(past.worlds[i], s) <= past.seen[i] <= |log|
    && GtidStep(log[..past.seen[i]], s, past.worlds[i], past.turns[i], past.worlds[i + 1])
    && SourceSet(log, past.seen[i], s, past.worlds[i], past.turns[i])
  }

  ghost predicate WholeAt(log: seq<StreamEvent>, s: GtidSettings, past: Past, i: nat)
    requires past.Lengths() && i < |past.turns|
  {
    SetOf(past.worlds[i], s) <= past.seen[i] <= |log| && Whole(log, past.seen[i], s, past.worlds[i], past.turns[i])
  }

  ghost predicate Happened(log: seq<StreamEvent>, s: GtidSettings, past: Past) {
    past.Lengths() && forall i {:trigger StepAt(log, s, past, i)} :: 0 <= i < |past.turns| ==> StepAt(log, s, past, i)
  }

  lemma {:induction false} WholeInStep(log: seq<StreamEvent>, s: GtidSettings, past: Past, n: nat)
    requires Readable(log, s) && Happened(log, s, past) && n <= |past.turns| && InStep(log, s, past.worlds[0])
    requires forall i {:trigger WholeAt(log, s, past, i)} :: 0 <= i < n ==> WholeAt(log, s, past, i)
    ensures InStep(log, s, past.worlds[n])
  {
    if n > 0 {
      WholeInStep(log, s, past, n - 1);
      assert StepAt(log, s, past, n - 1) && WholeAt(log, s, past, n - 1);
      StepKeepsIff(log, past.seen[n - 1], s, past.worlds[n - 1], past.turns[n - 1], past.worlds[n]);
    }
  }

  lemma InStepWhole(log: seq<StreamEvent>, s: GtidSettings, past: Past, i: nat)
    requires Readable(log, s) && Happened(log, s, past) && i < |past.turns|
    requires InStep(log, s, past.worlds[i]) && InStep(log, s, past.worlds[i + 1])
    ensures WholeAt(log, s, past, i)
  {
    assert StepAt(log, s, past, i);
    StepKeepsIff(log, past.seen[i], s, past.worlds[i], past.turns[i], past.worlds[i + 1]);
  }

  ghost predicate InStepAt(log: seq<StreamEvent>, s: GtidSettings, past: Past, i: nat)
    requires past.Lengths() && i <= |past.turns|
  {
    InStep(log, s, past.worlds[i])
  }

  /** Over any sequence of GTID runs: the set always covers exactly the transactions that the
      destination holds if and only if every run was whole. */
  lemma HistoryInStepIff(log: seq<StreamEvent>, s: GtidSettings, past: Past)
    requires Readable(log, s) && Happened(log, s, past) && InStep(log, s, past.worlds[0])
    ensures (forall i {:trigger InStepAt(log, s, past, i)} :: 0 <= i <= |past.turns| ==> InStepAt(log, s, past, i))
       <==> forall i {:trigger WholeAt(log, s, past, i)} :: 0 <= i < |past.turns| ==> WholeAt(log, s, past, i)
  {
    if forall i {:trigger WholeAt(log, s, past, i)} :: 0 <= i < |past.turns| ==> WholeAt(log, s, past, i) {
      forall n | 0 <= n <= |past.turns|
        ensures InStepAt(log, s, past, n)
      {
        WholeInStep(log, s, past, n);
      }
    }
    if forall i {:trigger InStepAt(log, s, past, i)} :: 0 <= i <= |past.turns| ==> InStepAt(log, s, past, i) {
      forall i | 0 <= i < |past.turns|
        ensures WholeAt(log, s, past, i)
      {
        assert InStepAt(log, s, past, i) && InStepAt(log, s, past, i + 1);
        InStepWhole(log, s, past, i);
      }
    }
  }

  /** And the list is what the tables hold: as long as the set is in step, they are db with exactly
      the transactions up to the set. */
  lemma {:induction false} HistoryHoldsApplied(log: seq<StreamEvent>, s: GtidSettings, db: Database, past: Past, n: nat)
    requires s.context.opts.applyDdl != "apply" && Happened(log, s, past) && n <= |past.turns|
      && HoldsApplied(db, past.worlds[0])
    ensures HoldsApplied(db, past.worlds[n])
    ensures InStep(log, s, past.worlds[n]) ==>
      Replayed(db, log[..SetOf(past.worlds[n], s)], s.context) == Ok(past.worlds[n].dest.tables)
  {
    if n > 0 {
      HistoryHoldsApplied(log, s, db, past, n - 1);
      assert StepAt(log, s, past, n - 1);
      StepHoldsApplied(log[..past.seen[n - 1]], s, db, past.worlds[n - 1], past.turns[n - 1], past.worlds[n]);
    }
  }

  // ----- the tables behind one saved run -----

  /** A run that read the events [g, e), applied k batches and saved the set n: the tables are level
      with the log at some d, and with the saved set exactly when what committed in [d, n), the
      batches left over and what came after e, changes nothing. */
  lemma SavedTablesIff(log: seq<StreamEvent>, origin: nat, db: Database, c: Context, g: nat, e: nat, n: nat,
                       batches: seq<Batch>,
                       before: Durable, after: Durable, k: nat)
    returns (d: nat)
    requires ExactlyOnce.Holds(log, origin, db, c, before.tables, g) && g <= e <= n <= |log|
    requires batches == Committed(log[g..e], c) && CleanCut(log[g..e], c)
    requires RowsOnly(batches) && k <= |batches| && CommitTo(before, batches, k) == Ok(after)
    ensures g <= d <= e && ExactlyOnce.Holds(log, origin, db, c, after.tables, d)
    ensures Committed(log[d..n], c) == batches[k..] + Committed(log[e..n], c)
    ensures ExactlyOnce.Holds(log, origin, db, c, after.tables, n)
       <==> CleanCut(log[d..n], c) && Replayed(after.tables, log[d..n], c) == Ok(after.tables)
  {
    d := StretchPart(log, g, e, log[g..e], c, batches, before, after, k);
    CommitToTables(before, batches, k);
    HoldsLater(log, origin, db, c, before.tables, g, after.tables, d);
    LeftOver(log, c, g, d, e, n, batches, k);
    HoldsThereIff(log, origin, db, c, after.tables, d, n);
  }

  lemma LeftOver(log: seq<StreamEvent>, c: Context, g: nat, d: nat, e: nat, n: nat, batches: seq<Batch>, k: nat)
    requires g <= d <= e <= n <= |log| && k <= |batches|
    requires batches == Committed(log[g..e], c) && CleanCut(log[g..e], c)
    requires CleanCut(log[g..d], c) && Committed(log[g..d], c) == batches[..k]
    ensures Committed(log[d..n], c) == batches[k..] + Committed(log[e..n], c)
  {
    CommittedSplit(log, g, d, e, c);
    DropTaken(batches, k, Committed(log[d..e], c));
    CommittedSplit(log, d, e, n, c);
  }

  lemma HoldsThereIff(log: seq<StreamEvent>, origin: nat, db: Database, c: Context, t: Database, d: nat, n: nat)
    requires ExactlyOnce.Holds(log, origin, db, c, t, d) && d <= n <= |log|
    ensures ExactlyOnce.Holds(log, origin, db, c, t, n)
      <==> CleanCut(log[d..n], c) && Replayed(t, log[d..n], c) == Ok(t)
  {
    CommittedSplit(log, origin, d, n, c);
    SliceAppend(log, origin, d, n);
    ReplayedAppend(db, log[origin..d], log[d..n], c);
  }

  // ----- a transaction that is lost -----

  function KeylessLoader(schema: string, table: string): Option<Metadata> {
    Some(TableMetadata(["a"], []))
  }

  const ROW: Row := [Scalar("1")]
  const WRITTEN := [TwinInsert("T", 10, ROW), TwinCommit(20)]
  const CONTEXT := Context(TWIN_OPTIONS, Fail, KeylessLoader)
  const EMPTY_TABLE: Database := map[("s", "T") := Keyless(TableMetadata(["a"], []), multiset{})]

  lemma WrittenCommits()
    ensures var batch := Batch("b.000001", 20, 0, RowPayload([ApplyEvent("s", "T", Insert(Plain, ROW), false)]));
      Committed(WRITTEN, CONTEXT) == [batch] && CleanCut(WRITTEN, CONTEXT)
  {
    var w, x := TwinInsert("T", 10, ROW), TwinCommit(20);
    CompileOneInsert("s", "T", ROW, TableMetadata(["a"], []));
    CutAtBoundary([], CONTEXT);
    OpenOneMore([], w, CONTEXT);
    OpenOneMore([w], x, CONTEXT);
    assert [] + [w] == [w] && [w] + [x] == WRITTEN;
    var event := ApplyEvent("s", "T", Insert(Plain, ROW), false);
    assert StatementsOf(w, CONTEXT) == [event];
    assert Open([w], CONTEXT) == [event] by {
      assert [] + [event] == [event];
    }
    assert Committed([w], CONTEXT) == [];
    CutAtBoundary(WRITTEN, CONTEXT);
  }

  /** The position is read, then the source commits, then the set is read: the run applies nothing
      and saves a set that covers the transaction, and no later run applies it. */
  lemma CommitBetweenQueriesIsLost() returns (w: GtidWorld, turn: Turn, w': GtidWorld)
    ensures var s := GtidSettings(0, Mark("", 0), CONTEXT);
      && w.dest.tables == EMPTY_TABLE && InStep(WRITTEN, s, w) && w'.dest == w.dest && SetOf(w', s) == 2
      && GtidStep(WRITTEN[..0], s, w, turn, w') && SourceSet(WRITTEN, 0, s, w, turn)
      && (forall later, w'' :: GtidStep(WRITTEN, s, w', later, w'') ==> w''.dest == w.dest)
      && Replayed(EMPTY_TABLE, WRITTEN, CONTEXT) != Ok(EMPTY_TABLE)
  {
    var s, end := GtidSettings(0, Mark("", 0), CONTEXT), Mark("b.000001", 4);
    var start := Durable(EMPTY_TABLE, None);
    w, w' := GtidWorld(start, None, []), GtidWorld(start, Some(2), []);
    turn := Turn(end, 0, Applied(Mark("", 0), 0), 0, Some(2));
    WrittenCommits();
    CutAtBoundary(WRITTEN[..0], CONTEXT);
    assert WRITTEN[..2] == WRITTEN && WRITTEN[..0] == [];
    assert LoadFromSet(WRITTEN[..0], 0, s.explicit, end, CONTEXT) == Ok([]);
    assert WindowRun(start, start, [], s.explicit, 0, turn.runEnd, 0);
    forall later, w'' | GtidStep(WRITTEN, s, w', later, w'')
      ensures w''.dest == w.dest
    {
      assert WRITTEN[2..] == [];
      assert LoadFromSet(WRITTEN, 2, s.explicit, later.end, CONTEXT) == Ok([]);
    }
    RowArrives();
  }

  lemma RowArrives()
    ensures Replayed(EMPTY_TABLE, WRITTEN, CONTEXT) != Ok(EMPTY_TABLE)
  {
    WrittenCommits();
    CommittedRowsOnly(WRITTEN, CONTEXT);
    var event := ApplyEvent("s", "T", Insert(Plain, ROW), false);
    var full := EMPTY_TABLE[("s", "T") := Keyless(TableMetadata(["a"], []), multiset{ROW})];
    assert [event][1..] == [];
    assert multiset{} + multiset{ROW} == multiset{ROW};
    assert ExecEvents(EMPTY_TABLE, [event]) == Ok(full);
    var batches := Committed(WRITTEN, CONTEXT);
    assert batches[..0] == [] && TablesAfter(EMPTY_TABLE, []) == Ok(EMPTY_TABLE);
    assert TablesAfter(EMPTY_TABLE, batches) == Ok(full);
    assert ROW in multiset{ROW};
  }
}
