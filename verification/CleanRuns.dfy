/** Runs that meet no fault: limits only slow a replay down, and a window without DDL that the
    source wrote is applied to its end. */
module CleanRuns {
  import opened Ordering
  import opened Wrappers
  import opened Decimal
  import opened RowReplay
  import opened BinlogPosition
  import opened BinlogBatches
  import opened CommittedTransactions
  import opened BuildOutcome
  import opened BinlogApply
  import opened BinlogRun
  import opened ExactlyOnce
  import opened ReplayGoals

  // ----- limits -----

  /** How many batches one run without faults applies. */
  function Fitting(limit: nat, batches: seq<Batch>): (k: nat)
    ensures Longest(limit, batches, k)
  {
    FittingFrom(limit, batches, 0)
  }

  function FittingFrom(limit: nat, batches: seq<Batch>, k: nat): (r: nat)
    requires k <= |batches| && Within(limit, batches, k)
    ensures Longest(limit, batches, r)
    decreases |batches| - k
  {
    if k < |batches| && Within(limit, batches, k + 1) then FittingFrom(limit, batches, k + 1) else k
  }

  lemma {:induction false} WithinDown(limit: nat, batches: seq<Batch>, i: nat, j: nat)
    requires i <= j <= |batches| && Within(limit, batches, j)
    ensures Within(limit, batches, i)
  {
    TotalGrows(batches, i, j);
  }

  /** The longest admitted prefix is unique, so a run applies exactly Fitting batches. */
  lemma LongestUnique(limit: nat, batches: seq<Batch>, k: nat)
    requires Longest(limit, batches, k)
    ensures k == Fitting(limit, batches)
  {
    var f := Fitting(limit, batches);
    if k < f {
      WithinDown(limit, batches, k + 1, f);
    } else if f < k {
      WithinDown(limit, batches, f + 1, k);
    }
  }

  /** The limit admits every single batch. */
  predicate AdmitsEach(limit: nat, batches: seq<Batch>) {
    limit == 0 || forall i :: 0 <= i < |batches| ==> batches[i].Count() <= limit
  }

  lemma AdmitsRest(limit: nat, batches: seq<Batch>, k: nat)
    requires AdmitsEach(limit, batches) && k <= |batches|
    ensures AdmitsEach(limit, batches[k..])
  {}

  /** A limit that admits every batch lets a run get on. */
  lemma FittingMoves(limit: nat, batches: seq<Batch>)
    requires AdmitsEach(limit, batches) && batches != []
    ensures Fitting(limit, batches) > 0
  {
    assert TotalTo(batches, 1) == batches[0].Count();
  }

  // ----- what one run without faults does -----

  lemma {:induction false} CommitToPrefix(d: Durable, batches: seq<Batch>, k: nat, n: nat)
    requires RowsOnly(batches) && k <= n <= |batches| && CommitTo(d, batches, n).Ok?
    ensures CommitTo(d, batches, k).Ok?
    decreases n - k
  {
    if k < n {
      CommitToPrefix(d, batches, k, n - 1);
    }
  }

  lemma {:induction false} CommitToRest(d: Durable, batches: seq<Batch>, k: nat, n: nat)
    requires RowsOnly(batches) && k <= n <= |batches| && CommitTo(d, batches, n).Ok?
    ensures RowsOnly(batches[k..]) && CommitTo(d, batches, k).Ok?
    ensures CommitTo(CommitTo(d, batches, k).value, batches[k..], n - k) == CommitTo(d, batches, n)
    decreases n - k
  {
    if k < n {
      CommitToRest(d, batches, k, n - 1);
      assert batches[k..][n - k - 1] == batches[n - 1];
    }
  }

  /** All batches can be applied, one after the other, and lead to the goal. */
  ghost predicate LeadTo(d: Durable, batches: seq<Batch>, goal: Durable) {
    RowsOnly(batches) && (forall i :: 0 <= i < |batches| ==> Usable(batches[i]))
      && CommitTo(d, batches, |batches|) == Ok(goal)
  }

  lemma LeadOn(d: Durable, batches: seq<Batch>, goal: Durable, k: nat, d': Durable)
    requires LeadTo(d, batches, goal) && k <= |batches| && CommitTo(d, batches, k) == Ok(d')
    ensures LeadTo(d', batches[k..], goal)
  {
    CommitToRest(d, batches, k, |batches|);
  }

  /** Nothing but the limit stops it: it applies the longest prefix within the limit. */
  lemma WindowSucceeds(d: Durable, d': Durable, batches: seq<Batch>, goal: Durable, start: Mark, limit: nat,
                       end: RunEnd, k: nat)
    requires LeadTo(d, batches, goal) && AdmitsEach(limit, batches)
    requires WindowRun(d, d', batches, start, limit, end, k) && EndsByItself(end)
    ensures end.Applied? && end.end == EndTo(start, batches, k) && k == Fitting(limit, batches)
  {
    if end.Stopped? {
      if end.reason.TransactionRejected? {
        CommitToPrefix(d, batches, k + 1, |batches|);
      }
      assert false;
    }
    LongestUnique(limit, batches, k);
  }

  // ----- what the next run loads -----

  /** m is a position in the log with this number. */
  predicate InLog(m: Mark, base: string, number: nat) {
    number < TWO_TO_64 && m.file == LogName(base, number)
  }

  lemma EventTests(log: seq<StreamEvent>, base: string, i: nat, m: Mark, number: nat)
    requires Ordered(log, base) && i < |log| && InLog(m, base, number)
    ensures After(log[i], m) <==> PositionLess(Position(number, m.pos), At(log[i]))
    ensures PositionReachedOrPassed(log[i].file, log[i].pos, m.file, m.pos)
      <==> !PositionLess(At(log[i]), Position(number, m.pos))
    ensures PositionBefore(log[i].file, log[i].pos, m.file, m.pos)
      <==> PositionLess(At(log[i]), Position(number, m.pos))
    ensures PositionBefore(m.file, m.pos, log[i].file, log[i].pos)
      <==> PositionLess(Position(number, m.pos), At(log[i]))
  {
    assert Canonical(base, log[i]);
    PositionTests(base, At(log[i]), Position(number, m.pos));
    PositionTests(base, Position(number, m.pos), At(log[i]));
  }

  /** The window of a reader that starts behind the first c events is the events [c, e). */
  predicate Window(log: seq<StreamEvent>, c: nat, e: nat, end: Mark) {
    c <= e <= |log| && WindowOf(log[c..], end) == log[c..e]
  }

  /** Of the events from c on exactly those before e end at the position or in front of it. */
  ghost predicate UpTo(log: seq<StreamEvent>, c: nat, e: nat, p: Position) {
    c <= e <= |log| && forall i {:trigger log[i]} :: c <= i < |log| ==> (i < e <==> !PositionLess(p, At(log[i])))
  }

  lemma LaterIsGreater(log: seq<StreamEvent>, base: string, c: nat, p: Position)
    requires Ordered(log, base) && c < |log| && !PositionLess(At(log[c]), p)
    ensures forall i {:trigger log[i]} :: c < i < |log| ==> PositionLess(p, At(log[i]))
  {
    forall i | c < i < |log|
      ensures PositionLess(p, At(log[i]))
    {
      assert PositionLess(At(log[c]), At(log[i]));
    }
  }

  /** A window is all events from its start that do not end beyond its end. */
  lemma {:induction false} WindowIs(log: seq<StreamEvent>, base: string, c: nat, end: Mark, number: nat)
    returns (e: nat)
    requires Ordered(log, base) && InLog(end, base, number) && c <= |log|
    ensures Window(log, c, e, end) && UpTo(log, c, e, Position(number, end.pos))
    decreases |log| - c
  {
    if c == |log| {
      return c;
    }
    EventTests(log, base, c, end, number);
    TakeOneMore(log, c);
    if PositionReachedOrPassed(log[c].file, log[c].pos, end.file, end.pos) {
      LaterIsGreater(log, base, c, Position(number, end.pos));
      e := if After(log[c], end) then c else c + 1;
    } else {
      e := WindowIs(log, base, c + 1, end, number);
      assert log[c..e] == [log[c]] + log[c + 1..e];
    }
  }

  /** Dropping one event. */
  lemma WindowNext(log: seq<StreamEvent>, base: string, c: nat, e: nat, end: Mark, number: nat)
    requires Ordered(log, base) && InLog(end, base, number) && Window(log, c, e, end) && c < e
    ensures Window(log, c + 1, e, end)
    ensures c + 1 < e ==> PositionBefore(log[c].file, log[c].pos, end.file, end.pos)
  {
    TakeOneMore(log, c);
    EventTests(log, base, c, end, number);
    assert log[c..e][1..] == log[c + 1..e];
    if PositionReachedOrPassed(log[c].file, log[c].pos, end.file, end.pos) {
      if c + 1 < |log| {
        EventTests(log, base, c + 1, end, number);
        assert PositionLess(At(log[c]), At(log[c + 1]));
      }
    }
  }

  /** Dropping events from the front of a window leaves the window of the later start. */
  lemma {:induction false} WindowTail(log: seq<StreamEvent>, base: string, c: nat, d: nat, e: nat, end: Mark,
                                      number: nat)
    requires Ordered(log, base) && InLog(end, base, number) && Window(log, c, e, end) && c <= d <= e
    ensures Window(log, d, e, end)
    ensures c < d < e ==> PositionBefore(log[d - 1].file, log[d - 1].pos, end.file, end.pos)
    decreases d - c
  {
    if c < d {
      WindowNext(log, base, c, e, end, number);
      WindowTail(log, base, c + 1, d, e, end, number);
    }
  }

  /** After k batches, whose last one ends with event d - 1 of the window, exactly the others are loaded. */
  lemma NextLoads(log: seq<StreamEvent>, base: string, context: Context, c: nat, d: nat, e: nat, end: Mark, number: nat,
                  batches: seq<Batch>, k: nat, start: Mark)
    requires Ordered(log, base) && SameMetadataPerKey(log, context) && Parsed(context) && InLog(end, base, number)
    requires c < d <= e && Window(log, c, e, end) && start == Mark(log[d - 1].file, log[d - 1].pos)
    requires k <= |batches| && CleanCut(log[c..d], context) && Committed(log[c..d], context) == batches[..k]
    requires Build(log[c..e], context.opts, context.loader) == Ok(batches)
    ensures LoadBatches(log, start, end, context) == Ok(batches[k..])
  {
    SameMetadataPart(log, c, e, context);
    SliceAppend(log, c, d, e);
    RestIsBuilt(log[c..d], log[d..e], k, context, batches);
    CutBehind(log, base, d - 1);
    StartedLater(log, base, context, c, d, e, end, number, start);
  }

  lemma LoadsWindow(log: seq<StreamEvent>, start: Mark, end: Mark, context: Context, stream: seq<StreamEvent>,
                    rest: seq<StreamEvent>)
    requires StreamFrom(log, start) == stream && WindowOf(stream, end) == rest
    requires rest != [] ==> PositionBefore(start.file, start.pos, end.file, end.pos)
    ensures LoadBatches(log, start, end, context) == if rest == [] then Ok([])
      else Build(rest, context.opts, context.loader)
  {}

  /** A start behind event d - 1 of the window loads what the rest of the window commits. */
  lemma StartedLater(log: seq<StreamEvent>, base: string, context: Context, c: nat, d: nat, e: nat, end: Mark,
                     number: nat, start: Mark)
    requires Ordered(log, base) && Parsed(context) && InLog(end, base, number) && Window(log, c, e, end) && c < d <= e
    requires start == Mark(log[d - 1].file, log[d - 1].pos) && CutAt(log, d, start)
    ensures LoadBatches(log, start, end, context) == if d == e then Ok([])
      else Build(log[d..e], context.opts, context.loader)
  {
    WindowTail(log, base, c, d, e, end, number);
    StreamFromCut(log, d, start);
    LoadsWindow(log, start, end, context, log[d..], log[d..e]);
  }

  lemma RestIsBuilt(a: seq<StreamEvent>, b: seq<StreamEvent>, k: nat, c: Context, batches: seq<Batch>)
    requires Parsed(c) && SameMetadataPerKey(a + b, c) && Build(a + b, c.opts, c.loader) == Ok(batches)
    requires k <= |batches| && CleanCut(a, c) && Committed(a, c) == batches[..k]
    ensures Build(b, c.opts, c.loader) == Ok(batches[k..])
    ensures b == [] ==> batches[k..] == []
  {
    BuildCut(a, b, c);
    DropTaken(batches, k, Build(b, c.opts, c.loader).value);
  }

  lemma DropTaken(batches: seq<Batch>, k: nat, rest: seq<Batch>)
    requires k <= |batches| && batches == batches[..k] + rest
    ensures batches[k..] == rest
  {}

  // ----- limited runs -----

  /** The next run starts at the cut, loads the batches, and they lead to the goal. */
  ghost predicate Underway(log: seq<StreamEvent>, s: Settings, end: Mark, w: World, cut: nat, batches: seq<Batch>,
                           goal: Durable) {
    && StartsAt(log, w, s.explicit, cut) && LeadTo(w.dest, batches, goal)
    && LoadBatches(log, StartOf(w, s.explicit, Mark("", 0)), end, s.context) == Ok(batches)
  }

  /** A run that starts at a cut loads nothing, or what the window [cut, e) commits. */
  lemma StretchLoaded(log: seq<StreamEvent>, context: Context, cut: nat, start: Mark, end: Mark, batches: seq<Batch>)
    returns (e: nat)
    requires SameMetadataPerKey(log, context) && Parsed(context) && CutAt(log, cut, start)
    requires LoadBatches(log, start, end, context) == Ok(batches)
    ensures cut <= e <= |log| && batches == Committed(log[cut..e], context)
    ensures cut < e ==> Window(log, cut, e, end) && Build(log[cut..e], context.opts, context.loader) == Ok(batches)
  {
    StreamFromCut(log, cut, start);
    WindowIsPrefix(log[cut..], end);
    var events := if PositionBefore(start.file, start.pos, end.file, end.pos) then WindowOf(log[cut..], end) else [];
    e := cut + |events|;
    assert events == log[cut..e];
    if cut < e {
      SameMetadataPart(log, cut, e, context);
      BuildIsCommitted(log[cut..e], context);
    }
  }

  lemma TakeOfSlice<T>(items: seq<T>, c: nat, e: nat, part: seq<T>, i: nat, d: nat)
    requires c <= e <= |items| && part == items[c..e] && i <= |part| && d == c + i
    ensures d <= e && part[..i] == items[c..d] && (i > 0 ==> part[i - 1] == items[d - 1])
  {}

  lemma SameCut(x: seq<StreamEvent>, y: seq<StreamEvent>, c: Context, batches: seq<Batch>)
    requires x == y && CleanCut(x, c) && Committed(x, c) == batches
    ensures CleanCut(y, c) && Committed(y, c) == batches
  {}

  lemma NotEmpty(events: seq<StreamEvent>, batches: seq<Batch>, i: nat, c: Context)
    requires batches == Committed(events, c) && i < |batches| && batches[i].payload.RowPayload?
    ensures batches[i].Count() > 0
  {
    RowBatchIsTransaction(events, batches[i], c);
  }

  /** The first k batches are what a part of the events commits, and its end is the checkpoint row. */
  lemma WindowPart(events: seq<StreamEvent>, c: Context, batches: seq<Batch>, before: Durable, after: Durable, k: nat)
    returns (i: nat)
    requires c.opts.applyDdl != "apply" && batches == Committed(events, c)
    requires RowsOnly(batches) && k <= |batches| && CommitTo(before, batches, k) == Ok(after)
    ensures i <= |events| && CleanCut(events[..i], c) && Committed(events[..i], c) == batches[..k]
    ensures if i == 0 then k == 0 && after == before
      else after.mark == Some(Mark(events[i - 1].file, events[i - 1].pos))
  {
    i := LeadingBatches(events, k, c);
    if k > 0 {
      NotEmpty(events, batches, k - 1, c);
      CommitToMark(before, batches, k);
    }
  }

  /** The same for a stretch of the log. */
  lemma StretchPart(log: seq<StreamEvent>, cut: nat, e: nat, events: seq<StreamEvent>, c: Context, batches: seq<Batch>,
                    before: Durable, after: Durable, k: nat)
    returns (d: nat)
    requires c.opts.applyDdl != "apply" && cut <= e <= |log| && events == log[cut..e] && batches == Committed(events, c)
    requires RowsOnly(batches) && k <= |batches| && CommitTo(before, batches, k) == Ok(after)
    ensures cut <= d <= e && CleanCut(log[cut..d], c) && Committed(log[cut..d], c) == batches[..k]
    ensures if d == cut then k == 0 && after == before else after.mark == Some(Mark(log[d - 1].file, log[d - 1].pos))
  {
    var i := WindowPart(events, c, batches, before, after, k);
    d := cut + i;
    TakeOfSlice(log, cut, e, events, i, d);
    SameCut(events[..i], log[cut..d], c, batches[..k]);
  }

  /** What one run does to the world. */
  lemma CleanRunApplies(log: seq<StreamEvent>, s: Settings, end: Mark, w: World, batches: seq<Batch>, goal: Durable,
                        current: Mark, limit: nat, w': World, ok: bool)
    requires LeadTo(w.dest, batches, goal)
      && LoadBatches(log, StartOf(w, s.explicit, current), end, s.context) == Ok(batches)
    requires AdmitsEach(limit, batches) && CleanRun(log, w, w', s, current, end, limit, ok)
    ensures var k := Fitting(limit, batches);
      ok && CommitTo(w.dest, batches, k) == Ok(w'.dest)
        && w'.json == Some(EndTo(StartOf(w, s.explicit, current), batches, k))
  {
    var start := StartOf(w, s.explicit, current);
    var runEnd, k :| WindowRun(w.dest, w'.dest, batches, start, limit, runEnd, k) && EndsByItself(runEnd)
      && ok == runEnd.Applied? && w'.json == if ok then Some(runEnd.end) else w.json;
    WindowSucceeds(w.dest, w'.dest, batches, goal, start, limit, runEnd, k);
  }

  /** Each run takes the longest prefix within its limit, and the next one loads exactly the rest. */
  lemma RunTakesPrefix(log: seq<StreamEvent>, base: string, s: Settings, end: Mark, number: nat, w: World, cut: nat,
                       batches: seq<Batch>, goal: Durable,
                       current: Mark, limit: nat, w': World, ok: bool)
    returns (cut': nat)
    requires Surroundings(log, base, s) && InLog(end, base, number) && Underway(log, s, end, w, cut, batches, goal)
    requires AdmitsEach(limit, batches) && CleanRun(log, w, w', s, current, end, limit, ok)
    ensures ok && Underway(log, s, end, w', cut', batches[Fitting(limit, batches)..], goal)
  {
    var start := StartOf(w, s.explicit, Mark("", 0));
    assert StartOf(w, s.explicit, current) == start;
    CleanRunApplies(log, s, end, w, batches, goal, current, limit, w', ok);
    var k := Fitting(limit, batches);
    LeadOn(w.dest, batches, goal, k, w'.dest);
    var e := StretchLoaded(log, s.context, cut, start, end, batches);
    cut' := StretchPart(log, cut, e, log[cut..e], s.context, batches, w.dest, w'.dest, k);
    NextStartsAt(log, base, w, w', s.explicit, cut, cut' - cut);
    NextRun(log, base, s, end, number, w, cut, batches, w', cut', e, k);
  }

  /** What the next run loads. */
  lemma NextRun(log: seq<StreamEvent>, base: string, s: Settings, end: Mark, number: nat, w: World, cut: nat,
                batches: seq<Batch>,
                w': World, cut': nat, e: nat, k: nat)
    requires Surroundings(log, base, s) && InLog(end, base, number) && StartsAt(log, w, s.explicit, cut)
    requires LoadBatches(log, StartOf(w, s.explicit, Mark("", 0)), end, s.context) == Ok(batches)
    requires cut <= cut' <= e <= |log| && k <= |batches|
    requires cut < e ==> Window(log, cut, e, end) && Build(log[cut..e], s.context.opts, s.context.loader) == Ok(batches)
    requires CleanCut(log[cut..cut'], s.context) && Committed(log[cut..cut'], s.context) == batches[..k]
    requires if cut' == cut then k == 0 && w'.dest == w.dest
      && (w'.json == w.json || w'.json == Some(StartOf(w, s.explicit, Mark("", 0))))
             else w'.dest.mark == Some(Mark(log[cut' - 1].file, log[cut' - 1].pos))
    ensures LoadBatches(log, StartOf(w', s.explicit, Mark("", 0)), end, s.context) == Ok(batches[k..])
  {
    StartBehind(log, base, s.explicit, w, w', cut, cut');
    if cut < cut' {
      NextLoads(log, base, s.context, cut, cut', e, end, number, batches, k, StartOf(w', s.explicit, Mark("", 0)));
    } else {
      WholeDrop(batches);
    }
  }

  lemma WholeDrop<T>(items: seq<T>)
    ensures items[0..] == items
  {}

  lemma StartBehind(log: seq<StreamEvent>, base: string, explicit: Mark, w: World, w': World, cut: nat, cut': nat)
    requires Ordered(log, base) && StartsAt(log, w, explicit, cut) && cut <= cut' <= |log|
    requires cut' == cut ==>
      w'.dest == w.dest && (w'.json == w.json || w'.json == Some(StartOf(w, explicit, Mark("", 0))))
    requires cut' > cut ==> w'.dest.mark == Some(Mark(log[cut' - 1].file, log[cut' - 1].pos))
    ensures StartOf(w', explicit, Mark("", 0))
         == if cut' == cut then StartOf(w, explicit, Mark("", 0)) else Mark(log[cut' - 1].file, log[cut' - 1].pos)
  {
    if cut' > cut {
      CutBehind(log, base, cut' - 1);
    }
  }

  /** One resumed run without faults, up to the given end, whatever the source's position. */
  ghost predicate LimitedRun(log: seq<StreamEvent>, s: Settings, end: Mark, limit: nat, w: World, w': World, ok: bool) {
    exists current :: CleanRun(log, w, w', s, current, end, limit, ok)
  }

  ghost predicate RunAt(log: seq<StreamEvent>, s: Settings, end: Mark, limits: seq<nat>, oks: seq<bool>,
                        history: seq<World>, i: nat)
    requires |history| == |limits| + 1 && |oks| == |limits| && i < |limits|
  {
    LimitedRun(log, s, end, limits[i], history[i], history[i + 1], oks[i])
  }

  ghost predicate LimitedRuns(log: seq<StreamEvent>, s: Settings, end: Mark, limits: seq<nat>, oks: seq<bool>,
                              history: seq<World>) {
    && |history| == |limits| + 1 && |oks| == |limits|
    && forall i {:trigger RunAt(log, s, end, limits, oks, history, i)} :: 0 <= i < |limits|
         ==> RunAt(log, s, end, limits, oks, history, i)
  }

  /** rest is what n runs that each take at least one batch leave of the batches. */
  predicate IsRest(rest: seq<Batch>, batches: seq<Batch>, n: nat) {
    rest == [] || (|rest| + n <= |batches| && rest == batches[|batches| - |rest|..])
  }

  lemma RestShrinks(limit: nat, batches: seq<Batch>, rest: seq<Batch>, n: nat)
    requires AdmitsEach(limit, batches) && IsRest(rest, batches, n)
    ensures AdmitsEach(limit, rest) && IsRest(rest[Fitting(limit, rest)..], batches, n + 1)
  {
    if rest != [] {
      AdmitsRest(limit, batches, |batches| - |rest|);
      FittingMoves(limit, rest);
    }
  }

  /** What n limited runs leave to do. */
  ghost predicate Left(log: seq<StreamEvent>, s: Settings, end: Mark, w: World, batches: seq<Batch>, goal: Durable,
                       n: nat) {
    exists cut, rest :: Underway(log, s, end, w, cut, rest, goal) && IsRest(rest, batches, n)
  }

  lemma LimitedRunOnce(log: seq<StreamEvent>, base: string, s: Settings, end: Mark, number: nat, w: World, cut: nat,
                       rest: seq<Batch>, goal: Durable,
                       limit: nat, w': World, ok: bool)
    returns (cut': nat)
    requires Surroundings(log, base, s) && InLog(end, base, number) && Underway(log, s, end, w, cut, rest, goal)
    requires AdmitsEach(limit, rest) && LimitedRun(log, s, end, limit, w, w', ok)
    ensures ok && Underway(log, s, end, w', cut', rest[Fitting(limit, rest)..], goal)
  {
    var current :| CleanRun(log, w, w', s, current, end, limit, ok);
    cut' := RunTakesPrefix(log, base, s, end, number, w, cut, rest, goal, current, limit, w', ok);
  }

  lemma LimitedRunTakes(log: seq<StreamEvent>, base: string, s: Settings, end: Mark, number: nat, w: World,
                        batches: seq<Batch>, goal: Durable, n: nat,
                        limit: nat, w': World, ok: bool)
    requires Surroundings(log, base, s) && InLog(end, base, number) && Left(log, s, end, w, batches, goal, n)
    requires AdmitsEach(limit, batches) && LimitedRun(log, s, end, limit, w, w', ok)
    ensures ok && Left(log, s, end, w', batches, goal, n + 1)
  {
    var cut, rest :| Underway(log, s, end, w, cut, rest, goal) && IsRest(rest, batches, n);
    RestShrinks(limit, batches, rest, n);
    var cut' := LimitedRunOnce(log, base, s, end, number, w, cut, rest, goal, limit, w', ok);
  }

  lemma {:induction false} RunsLead(log: seq<StreamEvent>, base: string, s: Settings, end: Mark, number: nat,
                                    batches: seq<Batch>, goal: Durable,
                                    limits: seq<nat>, oks: seq<bool>, history: seq<World>, n: nat)
    requires Surroundings(log, base, s) && InLog(end, base, number) && LimitedRuns(log, s, end, limits, oks, history)
      && n <= |limits|
    requires Left(log, s, end, history[0], batches, goal, 0)
    requires forall i {:trigger limits[i]} :: 0 <= i < n ==> AdmitsEach(limits[i], batches)
    ensures Left(log, s, end, history[n], batches, goal, n) && (n > 0 ==> oks[n - 1])
  {
    if n > 0 {
      RunsLead(log, base, s, end, number, batches, goal, limits, oks, history, n - 1);
      assert RunAt(log, s, end, limits, oks, history, n - 1);
      LimitedRunTakes(log, base, s, end, number, history[n - 1], batches, goal, n - 1, limits[n - 1], history[n],
        oks[n - 1]);
    }
  }

  lemma AllRunsLead(log: seq<StreamEvent>, base: string, s: Settings, end: Mark, number: nat, batches: seq<Batch>,
                    goal: Durable,
                    limits: seq<nat>, oks: seq<bool>, history: seq<World>)
    requires Surroundings(log, base, s) && InLog(end, base, number) && LimitedRuns(log, s, end, limits, oks, history)
    requires Left(log, s, end, history[0], batches, goal, 0)
    requires forall i {:trigger limits[i]} :: 0 <= i < |limits| ==> AdmitsEach(limits[i], batches)
    ensures (forall i :: 0 <= i < |limits| ==> oks[i]) && Left(log, s, end, history[|limits|], batches, goal, |limits|)
  {
    forall n | 0 <= n < |limits|
      ensures oks[n]
    {
      RunsLead(log, base, s, end, number, batches, goal, limits, oks, history, n + 1);
    }
    RunsLead(log, base, s, end, number, batches, goal, limits, oks, history, |limits|);
  }

  lemma NothingLeft(log: seq<StreamEvent>, s: Settings, end: Mark, w: World, batches: seq<Batch>, goal: Durable, n: nat)
    requires Left(log, s, end, w, batches, goal, n) && n >= |batches|
    ensures w.dest == goal
  {
    var cut, rest :| Underway(log, s, end, w, cut, rest, goal) && IsRest(rest, batches, n);
  }

  lemma WithoutLimit(d: Durable, d': Durable, batches: seq<Batch>, start: Mark, end: RunEnd, k: nat)
    requires WindowRun(d, d', batches, start, 0, end, k) && end.Applied?
    ensures LeadTo(d, batches, d')
  {
    assert k == |batches|;
  }

  /** What a run without a limit that succeeds says about the batches. */
  lemma UnlimitedLeads(log: seq<StreamEvent>, s: Settings, end: Mark, current: Mark, w: World, cut: nat,
                       batches: seq<Batch>, unlimited: World)
    requires StartsAt(log, w, s.explicit, cut) && CleanRun(log, w, unlimited, s, current, end, 0, true)
    requires LoadBatches(log, StartOf(w, s.explicit, current), end, s.context) == Ok(batches)
    ensures Left(log, s, end, w, batches, unlimited.dest, 0)
  {
    assert StartOf(w, s.explicit, current) == StartOf(w, s.explicit, Mark("", 0));
    var start := StartOf(w, s.explicit, current);
    var runEnd, k :| WindowRun(w.dest, unlimited.dest, batches, start, 0, runEnd, k) && runEnd.Applied?;
    WithoutLimit(w.dest, unlimited.dest, batches, start, runEnd, k);
    assert batches[0..] == batches;
    assert IsRest(batches, batches, 0) && Underway(log, s, end, w, cut, batches, unlimited.dest);
  }

  /** Limits only slow a replay down: if one run without a limit succeeds, then resumed runs with
      limits that admit every transaction all succeed, and at least as many of them as there are
      transactions leave the same tables and the same checkpoint row. */
  lemma LimitedRunsReachTheSame(log: seq<StreamEvent>, base: string, s: Settings, end: Mark, number: nat, cut: nat,
                                current: Mark, batches: seq<Batch>,
                                unlimited: World, limits: seq<nat>, oks: seq<bool>, history: seq<World>)
    requires Surroundings(log, base, s) && InLog(end, base, number) && LimitedRuns(log, s, end, limits, oks, history)
    requires StartsAt(log, history[0], s.explicit, cut)
    requires LoadBatches(log, StartOf(history[0], s.explicit, current), end, s.context) == Ok(batches)
    requires CleanRun(log, history[0], unlimited, s, current, end, 0, true)
    requires |limits| >= |batches| && forall i {:trigger limits[i]} :: 0 <= i < |limits|
                                        ==> AdmitsEach(limits[i], batches)
    ensures (forall i :: 0 <= i < |limits| ==> oks[i]) && history[|limits|].dest == unlimited.dest
  {
    UnlimitedLeads(log, s, end, current, history[0], cut, batches, unlimited);
    AllRunsLead(log, base, s, end, number, batches, unlimited.dest, limits, oks, history);
    NothingLeft(log, s, end, history[|limits|], batches, unlimited.dest, |limits|);
  }

  // ----- a window that the source wrote -----

  /** An event that the source can have written compiles, unless it is DDL or unsupported. */
  lemma {:induction false} SourceAcceptable(db: Database, events: seq<StreamEvent>, i: nat, c: Context)
    requires SourceAfter(db, events, c).Some? && i < |events|
    requires !RoleOf(events[i], c.opts).DdlPoint? && !RoleOf(events[i], c.opts).Unsupported?
    ensures Acceptable(events[i], c)
    decreases |events|
  {
    var last := |events| - 1;
    if i < last {
      SourceAcceptable(db, events[..last], i, c);
    } else if RoleOf(events[i], c.opts) == RowData {
      var e, s := events[i], SourceAfter(db, events[..last], c).value;
      CompileMeaning(e.kind.rowKind, e.schema, e.table, e.rows, s.working[(e.schema, e.table)], c.policy);
    }
  }

  /** No event of the stretch is DDL or of an unsupported kind. */
  ghost predicate Supported(events: seq<StreamEvent>, c: Context) {
    forall i :: 0 <= i < |events| ==> !RoleOf(events[i], c.opts).DdlPoint? && !RoleOf(events[i], c.opts).Unsupported?
  }

  /** Such a stretch of what the source wrote can be built when no transaction is open at its ends. */
  lemma SourceBuilds(db: Database, a: seq<StreamEvent>, b: seq<StreamEvent>, c: Context)
    requires Parsed(c) && SameMetadataPerKey(b, c) && c.opts.applyDdl != "apply"
    requires SourceAfter(db, a + b, c).Some? && CleanCut(a, c) && CleanCut(a + b, c) && Supported(b, c)
    ensures Build(b, c.opts, c.loader) == Ok(Committed(b, c))
  {
    CommittedAppend(a, b, c);
    SourceBuildable(db, a, b, c);
    BuildSucceedsIff(b, c);
  }

  lemma SourceBuildable(db: Database, a: seq<StreamEvent>, b: seq<StreamEvent>, c: Context)
    requires SourceAfter(db, a + b, c).Some? && Supported(b, c)
    ensures Buildable(b, c)
  {
    forall i | 0 <= i < |b|
      ensures Acceptable(b[i], c)
    {
      assert (a + b)[|a| + i] == b[i];
      SourceAcceptable(db, a + b, |a| + i, c);
    }
  }

  lemma {:induction false} TablesToCommit(d: Durable, batches: seq<Batch>, k: nat)
    requires RowsOnly(batches) && k <= |batches| && TablesAfter(d.tables, batches[..k]).Ok?
    ensures CommitTo(d, batches, k).Ok?
  {
    if k > 0 {
      assert batches[..k][..k - 1] == batches[..k - 1];
      TablesToCommit(d, batches, k - 1);
      CommitToTables(d, batches, k - 1);
    }
  }

  lemma {:induction false} EndsAtSome(events: seq<StreamEvent>, b: Batch, c: Context) returns (l: nat)
    requires b in Committed(events, c)
    ensures l < |events| && EndsAt(b, events[l])
    decreases |events|
  {
    var last := |events| - 1;
    if b in Committed(events[..last], c) {
      l := EndsAtSome(events[..last], b, c);
    } else {
      l := last;
    }
  }

  /** The end of every batch is the position of an event, so the replay can store it. */
  lemma EventUsable(log: seq<StreamEvent>, base: string, i: nat, j: nat, part: seq<StreamEvent>, l: nat, b: Batch)
    requires Ordered(log, base) && i <= j <= |log| && part == log[i..j] && l < |part| && EndsAt(b, part[l])
    ensures Usable(b)
  {
    assert part[l] == log[i + l];
    assert Canonical(base, log[i + l]);
  }

  lemma BatchesUsable(log: seq<StreamEvent>, base: string, i: nat, j: nat, part: seq<StreamEvent>, c: Context)
    requires Ordered(log, base) && i <= j <= |log| && part == log[i..j]
    ensures forall b :: b in Committed(part, c) ==> Usable(b)
  {
    forall b | b in Committed(part, c)
      ensures Usable(b)
    {
      var l := EndsAtSome(part, b, c);
      EventUsable(log, base, i, j, part, l, b);
    }
  }

  /** The window that ends at the position of event n - 1. */
  lemma WindowUpTo(log: seq<StreamEvent>, base: string, c: nat, n: nat, end: Mark)
    requires Ordered(log, base) && c <= n <= |log| && n > 0 && end == Mark(log[n - 1].file, log[n - 1].pos)
    ensures WindowOf(log[c..], end) == log[c..n]
  {
    assert Canonical(base, log[n - 1]);
    var e := WindowIs(log, base, c, end, Number(log[n - 1]));
    LaterIsGreater(log, base, n - 1, At(log[n - 1]));
    assert n < |log| ==> PositionLess(At(log[n - 1]), At(log[n]));
    assert n - 1 < e || c == n;
  }

  /** From a start that is spelled as the server spells its files the run loads events c up to n. */
  lemma StretchIsLoaded(log: seq<StreamEvent>, base: string, c: nat, n: nat, start: Mark, number: nat, end: Mark,
                        context: Context)
    requires Ordered(log, base) && c <= n <= |log| && n > 0 && end == Mark(log[n - 1].file, log[n - 1].pos)
    requires CutAt(log, c, start) && InLog(start, base, number)
    ensures LoadBatches(log, start, end, context) == if c == n then Ok([])
      else Build(log[c..n], context.opts, context.loader)
  {
    WindowUpTo(log, base, c, n, end);
    StreamFromCut(log, c, start);
    if c < n {
      assert After(log[n - 1], start);
      EventTests(log, base, n - 1, start, number);
    }
  }

  /** Progress: up to a point of the log where no transaction is open, with neither DDL nor
      unsupported statements on the way, every resumed run without faults and without a limit
      succeeds and makes the destination equal to the source's committed tables there. */
  lemma CatchesUp(log: seq<StreamEvent>, base: string, origin: nat, db: Database, s: Settings, w: World, cut: nat,
                  number: nat,
                  n: nat, current: Mark, end: Mark, w': World, ok: bool)
    requires Surroundings(log, base, s) && Synced(log, origin, db, s, w, cut) && cut <= n <= |log| && n > 0
    requires InLog(StartOf(w, s.explicit, Mark("", 0)), base, number) && end == Mark(log[n - 1].file, log[n - 1].pos)
    requires SourceAfter(db, log[origin..n], s.context).Some? && CleanCut(log[origin..n], s.context)
      && Supported(log[cut..n], s.context)
    requires CleanRun(log, w, w', s, current, end, 0, ok)
    ensures ok && w'.dest.tables == SourceAfter(db, log[origin..n], s.context).value.committed
  {
    var c, start := s.context, StartOf(w, s.explicit, Mark("", 0));
    var a, b := log[origin..cut], log[cut..n];
    var batches := Committed(b, c);
    SliceAppend(log, origin, cut, n);
    SameMetadataPart(log, cut, n, c);
    SourceBuilds(db, a, b, c);
    StretchIsLoaded(log, base, cut, n, start, number, end, c);
    ReplayIsSource(db, a + b, c);
    ReplayedAppend(db, a, b, c);
    CommittedRowsOnly(b, c);
    BatchesUsable(log, base, cut, n, b, c);
    WholeSlice(batches);
    TablesToCommit(w.dest, batches, |batches|);
    AppliesAll(log, s, w, w', current, end, batches, ok);
    CommitToTables(w.dest, batches, |batches|);
  }

  lemma AppliesAll(log: seq<StreamEvent>, s: Settings, w: World, w': World, current: Mark, end: Mark,
                   batches: seq<Batch>, ok: bool)
    requires StartKnown(w, s.explicit)
      && LoadBatches(log, StartOf(w, s.explicit, Mark("", 0)), end, s.context) == Ok(batches)
    requires RowsOnly(batches) && (forall b :: b in batches ==> Usable(b)) && CommitTo(w.dest, batches, |batches|).Ok?
    requires CleanRun(log, w, w', s, current, end, 0, ok)
    ensures ok && CommitTo(w.dest, batches, |batches|) == Ok(w'.dest)
  {
    var start := StartOf(w, s.explicit, Mark("", 0));
    var runEnd, k :| WindowRun(w.dest, w'.dest, batches, start, 0, runEnd, k) && EndsByItself(runEnd)
      && ok == runEnd.Applied?;
    WindowSucceeds(w.dest, w'.dest, batches, CommitTo(w.dest, batches, |batches|).value, start, 0, runEnd, k);
    LongestUnique(0, batches, |batches|);
  }
}
