/** Runs that resume: where each one starts, what it reads, and what the destination holds
    after any sequence of runs and crashes. */
module BinlogRun {
  import opened Ordering
  import opened Wrappers
  import opened Decimal
  import opened BinlogPosition
  import opened BinlogBatches
  import opened CommittedTransactions
  import opened BinlogApply

  /** What survives between runs: the destination and the JSON checkpoint file. */
  datatype World = World(dest: Durable, json: Option<Mark>)

  /** The fixed options of the runs; explicit is --start-file and --start-pos. */
  datatype Settings = Settings(explicit: Mark, context: Context)

  /** The resumed checkpoint: the destination's row wins over the file. */
  function Loaded(w: World): Mark {
    if w.dest.mark.Some? then w.dest.mark.value
    else if w.json.Some? then w.json.value
    else Mark("", 0)
  }

  /** Whether the run knows where to start without asking the source. */
  predicate StartKnown(w: World, explicit: Mark) {
    Loaded(w).file != "" || explicit.file != ""
  }

  /** Where a resumed run starts; current is the source's position, asked for only when needed. */
  function StartOf(w: World, explicit: Mark, current: Mark): Mark {
    var chosen := if Loaded(w).file != "" then Loaded(w) else explicit;
    if chosen.file == "" then current
    else Mark(chosen.file, if chosen.pos == 0 then 4 else chosen.pos)
  }

  predicate After(e: StreamEvent, m: Mark) {
    PositionAfter(e.file, e.pos, m.file, m.pos)
  }

  /** What the source streams to a reader that starts at the given position. */
  function StreamFrom(log: seq<StreamEvent>, start: Mark): seq<StreamEvent> {
    if log == [] then []
    else if After(log[0], start) then log
    else StreamFrom(log[1..], start)
  }

  /** The part of a stream that belongs to a window with the given end. */
  function WindowOf(stream: seq<StreamEvent>, end: Mark): seq<StreamEvent> {
    if stream == [] || After(stream[0], end) then []
    else if PositionReachedOrPassed(stream[0].file, stream[0].pos, end.file, end.pos) then [stream[0]]
    else [stream[0]] + WindowOf(stream[1..], end)
  }

  /** The reading loop of streamWindowEvents. */
  method StreamWindow(stream: seq<StreamEvent>, end: Mark) returns (events: seq<StreamEvent>)
    ensures events == WindowOf(stream, end)
  {
    events := [];
    var i := 0;
    assert stream[0..] == stream;
    while i < |stream|
      invariant 0 <= i <= |stream|
      invariant events + WindowOf(stream[i..], end) == WindowOf(stream, end)
    {
      var event := stream[i];
      TakeOneMore(stream, i);
      if PositionAfter(event.file, event.pos, end.file, end.pos) {
        return;
      }
      AppendAssociative(events, [event], WindowOf(stream[i + 1..], end));
      events := events + [event];
      if PositionReachedOrPassed(event.file, event.pos, end.file, end.pos) {
        return;
      }
      i := i + 1;
    }
  }

  /** loadApplyBatchesFromSource. */
  function LoadBatches(log: seq<StreamEvent>, start: Mark, end: Mark, c: Context): Result<seq<Batch>, BuildError> {
    if !PositionBefore(start.file, start.pos, end.file, end.pos) then Ok([])
    else
      var events := WindowOf(StreamFrom(log, start), end);
      if events == [] then Ok([]) else Build(events, c.opts, c.loader)
  }

  /** One resumed run over the visible log, whatever ended it; a crash may also fall between
      the last commit and the saving of the file. */
  ghost predicate RunStep(log: seq<StreamEvent>, w: World, w': World, s: Settings, current: Mark, end: Mark,
                          limit: nat) {
    var start := StartOf(w, s.explicit, current);
    match LoadBatches(log, start, end, s.context)
    case Err(_) => w' == w
    case Ok(batches) =>
      exists runEnd, k ::
        && WindowRun(w.dest, w'.dest, batches, start, limit, runEnd, k)
        && (w'.json == w.json || (runEnd.Applied? && w'.json == Some(runEnd.end)))
  }

  /** A run that meets no fault and can save its file: it ends by itself, succeeds exactly when the
      window was applied, and then the file has the end. */
  ghost predicate CleanRun(log: seq<StreamEvent>, w: World, w': World, s: Settings, current: Mark, end: Mark,
                           limit: nat, ok: bool) {
    var start := StartOf(w, s.explicit, current);
    match LoadBatches(log, start, end, s.context)
    case Err(_) => w' == w && !ok
    case Ok(batches) =>
      exists runEnd, k ::
        && WindowRun(w.dest, w'.dest, batches, start, limit, runEnd, k) && EndsByItself(runEnd)
        && ok == runEnd.Applied? && w'.json == if ok then Some(runEnd.end) else w.json
  }

  lemma {:induction false} FoldRowsOnly(s: BuildState, events: seq<StreamEvent>, c: Context)
    requires c.opts.applyDdl != "apply" && RowsOnly(s.batches)
    requires Fold(s, events, c.opts, c.policy, c.loader).Ok?
    ensures RowsOnly(Fold(s, events, c.opts, c.policy, c.loader).value.batches)
    decreases |events|
  {
    if events != [] {
      FoldRowsOnly(Step(s, events[0], c.opts, c.policy, c.loader).value, events[1..], c);
    }
  }

  method LoadApplyBatches(log: seq<StreamEvent>, start: Mark, end: Mark, c: Context)
    returns (r: Result<seq<Batch>, BuildError>)
    requires c.opts.applyDdl != "apply" && Parsed(c)
    ensures r == LoadBatches(log, start, end, c)
    ensures r.Ok? ==> RowsOnly(r.value)
  {
    if !PositionBefore(start.file, start.pos, end.file, end.pos) {
      return Ok([]);
    }
    var events := StreamWindow(StreamFrom(log, start), end);
    if events == [] {
      return Ok([]);
    }
    r := BuildApplyBatches(events, c.opts, c.loader);
    if r.Ok? {
      FoldRowsOnly(EMPTY, events, c);
    }
  }

  /** The replication state of the tool: the destination it writes to and its JSON file. */
  class Replicator {
    const dest: Destination
    var json: Option<Mark>

    constructor (dest: Destination)
      ensures this.dest == dest && json == None
    {
      this.dest, json := dest, None;
    }

    ghost function State(): World
      reads this, dest
    {
      World(dest.State(), json)
    }

    /** Run with --resume and without GTIDs. queryEnd is the second reading of the source's
        position, which may fail; saved tells whether the file could be written. */
    method Run(log: seq<StreamEvent>, s: Settings, current: Mark, queryEnd: Option<Mark>, limit: nat,
               faults: seq<Fault>, saved: bool) returns (ok: bool)
      requires s.context.opts.applyDdl != "apply" && Parsed(s.context)
      modifies this, dest
      ensures var end := if queryEnd.Some? then queryEnd.value else StartOf(old(State()), s.explicit, current);
        && RunStep(log, old(State()), State(), s, current, end, limit)
        && (Faultless(faults) && saved ==> CleanRun(log, old(State()), State(), s, current, end, limit, ok))
      ensures ok ==> json.Some?
    {
      ghost var before := State();
      var loaded := Mark("", 0);
      if json.Some? {
        loaded := json.value;
      }
      if dest.mark.Some? {
        loaded := dest.mark.value;
      }
      var start := s.explicit;
      if loaded.file != "" {
        start := loaded;
      }
      if start.pos == 0 {
        start := start.(pos := 4);
      }
      if start.file == "" {
        start := current;
      }
      assert start == StartOf(before, s.explicit, current);
      var end := if queryEnd.Some? then queryEnd.value else start;

      var loadedBatches := LoadApplyBatches(log, start, end, s.context);
      if loadedBatches.Err? {
        return false;
      }
      var runEnd, k := dest.ApplyWindow(loadedBatches.value, start, limit, faults);
      if !runEnd.Applied? || !saved {
        return false;
      }
      json := Some(runEnd.end);
      return true;
    }
  }

  // ----- the log and its cuts -----

  function Number(e: StreamEvent): nat {
    if SplitBinlogFile(e.file).Some? then SplitBinlogFile(e.file).value.1 else 0
  }

  function At(e: StreamEvent): Position {
    Position(Number(e), e.pos)
  }

  predicate Canonical(base: string, e: StreamEvent) {
    e.pos > 0 && e.file == LogName(base, Number(e)) && Number(e) < TWO_TO_64
  }

  /** The whole log of one server: canonical file names, positions strictly ascending. */
  ghost predicate Ordered(log: seq<StreamEvent>, base: string) {
    && base != ""
    && (forall i {:trigger Canonical(base, log[i])} :: 0 <= i < |log| ==> Canonical(base, log[i]))
    && (forall i, j {:trigger PositionLess(At(log[i]), At(log[j]))} ::
          0 <= i < j < |log| ==> PositionLess(At(log[i]), At(log[j])))
  }

  /** The position m falls right behind the first c events. */
  ghost predicate CutAt(log: seq<StreamEvent>, c: nat, m: Mark) {
    && c <= |log|
    && (forall i {:trigger After(log[i], m)} :: 0 <= i < c ==> !After(log[i], m))
    && (forall i {:trigger After(log[i], m)} :: c <= i < |log| ==> After(log[i], m))
  }

  lemma CutBehind(log: seq<StreamEvent>, base: string, i: nat)
    requires Ordered(log, base) && i < |log|
    ensures CutAt(log, i + 1, Mark(log[i].file, log[i].pos)) && log[i].file != "" && log[i].pos > 0
  {
    var m := Mark(log[i].file, log[i].pos);
    assert Canonical(base, log[i]);
    forall k | 0 <= k < |log|
      ensures After(log[k], m) <==> i < k
    {
      assert Canonical(base, log[k]);
      assert i < k ==> PositionLess(At(log[i]), At(log[k]));
      assert k < i ==> PositionLess(At(log[k]), At(log[i]));
      PositionTests(base, At(log[k]), At(log[i]));
    }
  }

  /** A start file without a position: the run begins in front of that file's first event. Every
      event ends behind the four bytes with which a log file opens. */
  lemma FileStartReadsAll(log: seq<StreamEvent>, base: string, w: World, n: nat, current: Mark, i: nat)
    requires Ordered(log, base) && n < TWO_TO_64 && Loaded(w).file == "" && i < |log| && log[i].pos > 4
    ensures After(log[i], StartOf(w, Mark(LogName(base, n), 0), current)) <==> Number(log[i]) >= n
  {
    assert Canonical(base, log[i]);
    assert LogName(base, n) != "";
    PositionTests(base, At(log[i]), Position(n, 4));
  }

  lemma {:induction false} StreamFromCut(log: seq<StreamEvent>, c: nat, m: Mark)
    requires CutAt(log, c, m)
    ensures StreamFrom(log, m) == log[c..]
  {
    if log != [] {
      assert After(log[0], m) <==> c == 0;
    }
    if c > 0 {
      assert log[1..][c - 1..] == log[c..];
      assert forall i :: 1 <= i < |log| ==> (After(log[i], m) <==> After(log[1..][i - 1], m));
      StreamFromCut(log[1..], c - 1, m);
    }
  }

  lemma CutVisible(log: seq<StreamEvent>, c: nat, n: nat, m: Mark)
    requires CutAt(log, c, m) && n <= |log|
    ensures CutAt(log[..n], if c <= n then c else n, m)
  {
    assert forall i :: 0 <= i < n ==> (After(log[..n][i], m) <==> After(log[i], m));
  }

  lemma {:induction false} WindowIsPrefix(stream: seq<StreamEvent>, end: Mark)
    ensures WindowOf(stream, end) <= stream
  {
    if stream != [] {
      WindowIsPrefix(stream[1..], end);
    }
  }

  /** Whatever a run loads is a stretch of the log that starts at its cut. */
  lemma LoadedStretch(log: seq<StreamEvent>, n: nat, c: nat, start: Mark, end: Mark) returns (j: nat)
    requires CutAt(log, c, start) && n <= |log|
    ensures c + j <= |log|
    ensures WindowOf(StreamFrom(log[..n], start), end) == log[c..c + j]
  {
    CutVisible(log, c, n, start);
    var v := if c <= n then c else n;
    StreamFromCut(log[..n], v, start);
    var stream := log[..n][v..];
    WindowIsPrefix(stream, end);
    j := |WindowOf(stream, end)|;
    assert WindowOf(stream, end) == stream[..j];
    assert stream[..j] == log[v..v + j];
    if c > n {
      assert log[c..c] == log[v..v + j];
    }
  }
}
