/** The worker pool of the baseline copy: one worker per table, a checkpoint map and a summary
    that all workers share, and every save writing the whole map. */
module BaselinePool {
  import opened Ordering
  import opened Wrappers
  import opened Keyset
  import opened BaselineCopy

  /** Where a worker is: it has read its entry, it has committed a page that is not saved yet,
      it has reached the end, it has returned. */
  datatype Worker =
    | Waiting
    | Reading(entry: Progress, cursor: Option<Key>)
    | Holding(entry: Progress, size: nat)
    | Closing(entry: Progress)
    | Ended
    | Failed

  datatype Summary = Summary(rows: nat, batches: nat, completed: nat)

  /** The destination tables, the checkpoint in memory, the checkpoint file, the workers. */
  datatype Pool = Pool(
    dest: map<string, set<Row>>, memory: map<string, Progress>, file: map<string, Progress>,
    workers: map<string, Worker>, summary: Summary)

  /** A step of one worker. Saves may fail; a worker may fail between any two steps. */
  datatype Step = Start(table: string) | Commit(table: string) | Save(table: string, ok: bool)
    | Close(table: string, ok: bool) | Fail(table: string)

  type Sources = map<string, Source>

  function Entry(checkpoint: map<string, Progress>, table: string): Progress {
    if table in checkpoint then checkpoint[table] else FRESH
  }

  ghost predicate Ready(sources: Sources, n: nat) {
    n >= 1 && forall t {:trigger sources[t]} :: t in sources ==> Stable(sources[t])
  }

  /** What one step does: to the worker's own table, to the checkpoint in memory and in the file,
      and to the summary. */
  datatype Effect = Effect(dest: set<Row>, worker: Worker, write: Option<Progress>, saved: bool, counts: Summary)

  const NOTHING := Summary(0, 0, 0)

  predicate Enabled(worker: Worker, entry: Progress, step: Step) {
    match step
    case Start(_) => worker.Waiting?
    case Commit(_) => worker.Reading?
    case Save(_, _) => worker.Holding?
    case Close(_, _) => worker.Closing?
    case Fail(t) => (worker.Waiting? && !entry.done) || worker.Reading? || worker.Holding? || worker.Closing?
  }

  ghost function Act(src: Source, n: nat, dest: set<Row>, entry: Progress, worker: Worker, step: Step): Effect
    requires AllFit(src.rows, src.cols) && n >= 1 && Enabled(worker, entry, step)
  {
    match step
    case Start(_) =>
      if entry.done then Effect(dest, Ended, None, false, Summary(0, 0, 1))
      else
        var (cursor, p) := StartOf(src, true, State(dest, entry));
        Effect(dest, Reading(p, cursor), None, false, NOTHING)
    case Commit(_) =>
      var q := Position(src.rows, src.cols, worker.cursor);
      var m := PageSize(|src.rows|, n, q);
      if m == 0 then Effect(dest, Closing(worker.entry), None, false, NOTHING)
      else
        var inserted := InsertAll(dest, src.rows, q, q + m, src.uniques);
        if inserted.None? then Effect(dest, Failed, None, false, NOTHING)
        else Effect(inserted.value, Holding(Saved(src, worker.entry, q, m), m), None, false, NOTHING)
    case Save(_, ok) =>
      var p := worker.entry;
      Effect(dest, if !ok then Failed else if worker.size < n then Closing(p) else Reading(p, Some(p.cursor)),
             Some(p), ok, Summary(worker.size, 1, 0))
    case Close(_, ok) =>
      Effect(dest, if ok then Ended else Failed, Some(worker.entry.(done := true)), ok, Summary(0, 0, 1))
    case Fail(_) => Effect(dest, Failed, None, false, NOTHING)
  }

  function Add(a: Summary, b: Summary): Summary {
    Summary(a.rows + b.rows, a.batches + b.batches, a.completed + b.completed)
  }

  ghost predicate Steps(sources: Sources, n: nat, pool: Pool, step: Step) {
    && Ready(sources, n) && step.table in sources && step.table in pool.dest && step.table in pool.workers
    && Enabled(pool.workers[step.table], Entry(pool.memory, step.table), step)
  }

  /** The pool after a step: a save writes the entries of all tables. */
  ghost function Next(sources: Sources, n: nat, pool: Pool, step: Step): Pool
    requires Steps(sources, n, pool, step)
  {
    var t := step.table;
    var e := Act(sources[t], n, pool.dest[t], Entry(pool.memory, t), pool.workers[t], step);
    var memory := if e.write.Some? then pool.memory[t := e.write.value] else pool.memory;
    Pool(pool.dest[t := e.dest], memory, if e.saved then memory else pool.file, pool.workers[t := e.worker],
      Add(pool.summary, e.counts))
  }

  // ----- one table -----

  /** What one table sees of the pool. */
  datatype View = View(dest: set<Row>, memory: Progress, file: Progress, worker: Worker)

  ghost predicate EntryAt(src: Source, p: Progress)
    requires AllFit(src.rows, src.cols)
  {
    p.rowsCopied <= |src.rows| && p == FileOf(src, p.rowsCopied).(done := p.done)
      && (p.done ==> p.rowsCopied == |src.rows|)
  }

  /** Reading has come in whole pages from the base. */
  predicate Whole(rows: nat, n: nat)
    requires n >= 1
    decreases rows
  {
    rows == 0 || (rows >= n && Whole(rows - n, n))
  }

  /** The destination holds a prefix of at least j rows. */
  ghost predicate Ahead(src: Source, j: nat, dest: set<Row>) {
    exists k: nat :: j <= k <= |src.rows| && dest == Prefix(src, k)
  }

  /** The destination is a prefix, the entry in memory is at or behind it, and the file is at or
      behind memory. A crash may have left the destination ahead of the entry. */
  ghost predicate ViewOk(src: Source, n: nat, base: nat, v: View)
    requires AllFit(src.rows, src.cols) && n >= 1
  {
    var j := v.memory.rowsCopied;
    && EntryAt(src, v.memory) && EntryAt(src, v.file) && v.file.rowsCopied <= j && (v.file.done ==> v.memory.done)
       && base <= j
    && match v.worker
       case Waiting => j == base && Ahead(src, j, v.dest)
       case Reading(p, cursor) =>
         p == v.memory && !p.done && Ahead(src, j, v.dest) && Position(src.rows, src.cols, cursor) == j
           && Whole(j - base, n)
       case Holding(p, m) =>
         && !v.memory.done && 1 <= m <= n && j + m <= |src.rows| && (m < n ==> j + m == |src.rows|)
            && Whole(j - base, n)
         && p == FileOf(src, j + m) && v.dest == Prefix(src, j + m)
       case Closing(p) => p == v.memory && !p.done && j == |src.rows| && v.dest == Prefix(src, j)
       case Ended => v.memory.done && v.dest == Prefix(src, j)
       case Failed => Ahead(src, j, v.dest)
  }

  /** A table that is still to be read holds exactly the rows of its entry. */
  ghost predicate Level(src: Source, v: View) {
    (v.worker.Waiting? || v.worker.Reading?) && v.memory.rowsCopied <= |src.rows| ==>
      v.dest == Prefix(src, v.memory.rowsCopied)
  }

  function After(v: View, e: Effect): View {
    var memory := if e.write.Some? then e.write.value else v.memory;
    View(e.dest, memory, if e.saved then memory else v.file, e.worker)
  }

  lemma StartOk(src: Source, n: nat, base: nat, v: View, t: string)
    requires Stable(src) && n >= 1 && ViewOk(src, n, base, v) && v.worker.Waiting?
    ensures ViewOk(src, n, base, After(v, Act(src, n, v.dest, v.memory, v.worker, Start(t))))
  {
    CursorStands(src, v.memory.rowsCopied);
  }

  /** The next page of a level table, if there is one. */
  lemma CommitPage(src: Source, n: nat, base: nat, v: View, t: string, m: nat)
    requires Stable(src) && n >= 1 && ViewOk(src, n, base, v) && v.worker.Reading?
      && v.dest == Prefix(src, v.memory.rowsCopied)
    requires m == PageSize(|src.rows|, n, v.memory.rowsCopied) && m > 0
    ensures var e := Act(src, n, v.dest, v.memory, v.worker, Commit(t));
      && e == Effect(Prefix(src, v.memory.rowsCopied + m),
         Holding(Saved(src, v.worker.entry, v.memory.rowsCopied, m), m), None, false, NOTHING)
      && ViewOk(src, n, base, After(v, e))
  {
    PageInserts(src, v.memory.rowsCopied, v.memory.rowsCopied, m);
  }

  lemma CommitLevel(src: Source, n: nat, base: nat, v: View, t: string)
    requires Stable(src) && n >= 1 && ViewOk(src, n, base, v) && v.worker.Reading?
      && v.dest == Prefix(src, v.memory.rowsCopied)
    ensures var e := Act(src, n, v.dest, v.memory, v.worker, Commit(t));
      ViewOk(src, n, base, After(v, e)) && !e.worker.Failed?
  {
    var m := PageSize(|src.rows|, n, v.memory.rowsCopied);
    if m > 0 {
      CommitPage(src, n, base, v, t, m);
    }
  }

  lemma CommitAhead(src: Source, n: nat, base: nat, v: View, t: string, k: nat)
    requires Stable(src) && n >= 1 && ViewOk(src, n, base, v) && v.worker.Reading?
      && v.memory.rowsCopied < k <= |src.rows| && v.dest == Prefix(src, k)
    ensures var e := Act(src, n, v.dest, v.memory, v.worker, Commit(t));
      ViewOk(src, n, base, After(v, e)) && e.worker.Failed? && e.dest == v.dest
  {
    PageInserts(src, k, v.memory.rowsCopied, PageSize(|src.rows|, n, v.memory.rowsCopied));
  }

  /** A page goes in exactly when the destination is level; otherwise the worker fails on a
      duplicate key and changes nothing. */
  lemma CommitOk(src: Source, n: nat, base: nat, v: View, t: string)
    requires Stable(src) && n >= 1 && ViewOk(src, n, base, v) && v.worker.Reading?
    ensures var e := Act(src, n, v.dest, v.memory, v.worker, Commit(t));
      ViewOk(src, n, base, After(v, e)) && (e.worker.Failed? <==> !Level(src, v))
        && (e.worker.Failed? ==> e.dest == v.dest)
  {
    var j := v.memory.rowsCopied;
    if v.dest == Prefix(src, j) {
      CommitLevel(src, n, base, v, t);
    } else {
      var k: nat :| j <= k <= |src.rows| && v.dest == Prefix(src, k);
      CommitAhead(src, n, base, v, t, k);
    }
  }

  lemma {:induction false} WholeNext(rows: nat, n: nat)
    requires n >= 1 && Whole(rows, n)
    ensures Whole(rows + n, n)
  {}

  lemma SaveOk(src: Source, n: nat, base: nat, v: View, t: string, ok: bool)
    requires Stable(src) && n >= 1 && ViewOk(src, n, base, v) && v.worker.Holding?
    ensures ViewOk(src, n, base, After(v, Act(src, n, v.dest, v.memory, v.worker, Save(t, ok))))
  {
    var j, m := v.memory.rowsCopied, v.worker.size;
    WholeNext(j - base, n);
    CursorStands(src, j + m);
  }

  lemma CloseOk(src: Source, n: nat, base: nat, v: View, t: string, ok: bool)
    requires Stable(src) && n >= 1 && ViewOk(src, n, base, v) && v.worker.Closing?
    ensures ViewOk(src, n, base, After(v, Act(src, n, v.dest, v.memory, v.worker, Close(t, ok))))
  {}

  lemma FailOk(src: Source, n: nat, base: nat, v: View, t: string)
    requires Stable(src) && n >= 1 && ViewOk(src, n, base, v) && Enabled(v.worker, v.memory, Fail(t))
    ensures ViewOk(src, n, base, After(v, Act(src, n, v.dest, v.memory, v.worker, Fail(t))))
  {
    assert v.worker.Holding? ==> v.memory.rowsCopied <= v.memory.rowsCopied + v.worker.size <= |src.rows|;
  }

  /** Every step of a worker keeps its own table in order. */
  lemma OwnStepOk(src: Source, n: nat, base: nat, v: View, step: Step)
    requires Stable(src) && n >= 1 && ViewOk(src, n, base, v) && Enabled(v.worker, v.memory, step)
    ensures ViewOk(src, n, base, After(v, Act(src, n, v.dest, v.memory, v.worker, step)))
  {
    match step
    case Start(t) => StartOk(src, n, base, v, t);
    case Commit(t) => CommitOk(src, n, base, v, t);
    case Save(t, ok) => SaveOk(src, n, base, v, t, ok);
    case Close(t, ok) => CloseOk(src, n, base, v, t, ok);
    case Fail(t) => FailOk(src, n, base, v, t);
  }

  // ----- sums over the tables -----

  function Sum(work: seq<string>, f: string -> nat): nat
    decreases |work|
  {
    if work == [] then 0 else Sum(work[..|work| - 1], f) + f(work[|work| - 1])
  }

  lemma {:induction false} SumSame(work: seq<string>, f: string -> nat, g: string -> nat)
    requires forall u :: u in work ==> f(u) == g(u)
    ensures Sum(work, f) == Sum(work, g)
    decreases |work|
  {
    if work != [] {
      SplitLast(work);
      SumSame(work[..|work| - 1], f, g);
    }
  }

  lemma {:induction false} SumChanges(work: seq<string>, f: string -> nat, g: string -> nat, t: string)
    requires Distinct(work) && t in work && forall u :: u in work && u != t ==> f(u) == g(u)
    ensures Sum(work, g) + f(t) == Sum(work, f) + g(t)
    decreases |work|
  {
    SplitLast(work);
    var last := work[|work| - 1];
    if t == last {
      SumSame(work[..|work| - 1], f, g);
    } else {
      SumChanges(work[..|work| - 1], f, g, t);
    }
  }

  // ----- what a table has added to the summary -----

  function RowsOf(base: nat, v: View): nat {
    if base <= v.memory.rowsCopied then v.memory.rowsCopied - base else 0
  }

  function BatchesOf(n: nat, base: nat, v: View): nat
    requires n >= 1
  {
    Chunks(RowsOf(base, v), n)
  }

  function CompletedOf(v: View): nat {
    if v.worker.Ended? || (v.worker.Failed? && v.memory.done) then 1 else 0
  }

  lemma {:induction false} ChunksNext(rows: nat, n: nat, m: nat)
    requires n >= 1 && Whole(rows, n) && 1 <= m <= n
    ensures Chunks(rows + m, n) == Chunks(rows, n) + 1
    decreases rows
  {
    if rows != 0 {
      ChunksNext(rows - n, n, m);
      assert rows + m - n == rows - n + m;
      assert rows > n ==> Chunks(rows, n) == 1 + Chunks(rows - n, n);
    }
  }

  /** Each step adds to the summary what it adds to its table's share. */
  lemma ShareAdded(src: Source, n: nat, base: nat, v: View, step: Step)
    requires Stable(src) && n >= 1 && ViewOk(src, n, base, v) && Enabled(v.worker, v.memory, step)
    ensures var e := Act(src, n, v.dest, v.memory, v.worker, step);
      var v' := After(v, e);
      && RowsOf(base, v') == RowsOf(base, v) + e.counts.rows
      && BatchesOf(n, base, v') == BatchesOf(n, base, v) + e.counts.batches
      && CompletedOf(v') == CompletedOf(v) + e.counts.completed
  {
    if step.Save? {
      ChunksNext(v.memory.rowsCopied - base, n, v.worker.size);
    }
  }

  // ----- the pool -----

  /** A step that is not itself an error. */
  predicate Quiet(step: Step) {
    match step
    case Save(_, ok) => ok
    case Close(_, ok) => ok
    case Fail(_) => false
    case _ => true
  }

  lemma OwnFileGrows(src: Source, n: nat, base: nat, v: View, step: Step)
    requires Stable(src) && n >= 1 && ViewOk(src, n, base, v) && Enabled(v.worker, v.memory, step)
    ensures var v' := After(v, Act(src, n, v.dest, v.memory, v.worker, step));
      v.file.rowsCopied <= v'.file.rowsCopied && (v.file.done ==> v'.file.done)
    ensures Quiet(step) && Level(src, v) ==>
      var e := Act(src, n, v.dest, v.memory, v.worker, step); !e.worker.Failed? && Level(src, After(v, e))
  {
    if step.Commit? {
      CommitOk(src, n, base, v, step.table);
    }
  }

  function ViewOf(pool: Pool, t: string): View {
    View(if t in pool.dest then pool.dest[t] else {}, Entry(pool.memory, t), Entry(pool.file, t),
         if t in pool.workers then pool.workers[t] else Failed)
  }

  /** The tables to copy, and how many rows of each the checkpoint had at the start. */
  datatype Job = Job(sources: Sources, n: nat, work: seq<string>, base: map<string, nat>)

  ghost predicate JobOk(job: Job) {
    && Ready(job.sources, job.n) && Distinct(job.work)
    && (forall t :: t in job.work <==> t in job.sources) && job.base.Keys == job.sources.Keys
  }

  ghost predicate TableOk(job: Job, pool: Pool, t: string)
    requires JobOk(job) && t in job.sources
  {
    t in pool.dest && t in pool.workers && ViewOk(job.sources[t], job.n, job.base[t], ViewOf(pool, t))
  }

  function RowShare(job: Job, pool: Pool): string -> nat {
    t => if t in job.base then RowsOf(job.base[t], ViewOf(pool, t)) else 0
  }

  function BatchShare(job: Job, pool: Pool): string -> nat {
    t => if t in job.base && job.n >= 1 then BatchesOf(job.n, job.base[t], ViewOf(pool, t)) else 0
  }

  function CompletedShare(pool: Pool): string -> nat {
    t => CompletedOf(ViewOf(pool, t))
  }

  ghost predicate SummaryOk(job: Job, pool: Pool)
    requires JobOk(job)
  {
    && pool.summary.rows == Sum(job.work, RowShare(job, pool))
    && pool.summary.batches == Sum(job.work, BatchShare(job, pool))
    && pool.summary.completed == Sum(job.work, CompletedShare(pool))
  }

  ghost predicate PoolOk(job: Job, pool: Pool) {
    && JobOk(job)
    && (forall t {:trigger TableOk(job, pool, t)} :: t in job.sources ==> TableOk(job, pool, t))
    && (forall t {:trigger Entry(pool.file, t)} :: t !in job.sources ==> Entry(pool.file, t) == Entry(pool.memory, t))
    && SummaryOk(job, pool)
  }

  /** The own table sees the effect; every other table at most sees its entry reach the file. */
  ghost predicate Moved(pool: Pool, t: string, e: Effect, pool': Pool) {
    && pool'.dest.Keys == pool.dest.Keys && pool'.workers.Keys == pool.workers.Keys
       && pool'.summary == Add(pool.summary, e.counts)
    && pool.memory.Keys <= pool'.memory.Keys <= pool.memory.Keys + {t}
    && forall u {:trigger ViewOf(pool', u)} ::
         ViewOf(pool', u) == var v := ViewOf(pool, u); if u == t then After(v, e) else if e.saved
           then v.(file := v.memory) else v
  }

  /** An effect that leaves its table in order and adds to the summary what it adds to the table's share. */
  ghost predicate Sound(job: Job, v: View, t: string, e: Effect)
    requires JobOk(job) && t in job.sources
  {
    var base, v' := job.base[t], After(v, e);
    && ViewOk(job.sources[t], job.n, base, v')
    && RowsOf(base, v') == RowsOf(base, v) + e.counts.rows
    && BatchesOf(job.n, base, v') == BatchesOf(job.n, base, v) + e.counts.batches
    && CompletedOf(v') == CompletedOf(v) + e.counts.completed
    && v.file.rowsCopied <= v'.file.rowsCopied && (v.file.done ==> v'.file.done)
  }

  lemma ActSound(job: Job, v: View, step: Step) returns (e: Effect)
    requires JobOk(job) && step.table in job.sources && ViewOk(job.sources[step.table], job.n, job.base[step.table], v)
    requires Enabled(v.worker, v.memory, step)
    ensures e == Act(job.sources[step.table], job.n, v.dest, v.memory, v.worker, step) && Sound(job, v, step.table, e)
    ensures Quiet(step) && Level(job.sources[step.table], v)
      ==> !e.worker.Failed? && Level(job.sources[step.table], After(v, e))
    ensures Quiet(step) && e.write.Some? ==> e.saved
    ensures e.write.None? ==> !e.saved
  {
    var t := step.table;
    e := Act(job.sources[t], job.n, v.dest, v.memory, v.worker, step);
    OwnStepOk(job.sources[t], job.n, job.base[t], v, step);
    ShareAdded(job.sources[t], job.n, job.base[t], v, step);
    OwnFileGrows(job.sources[t], job.n, job.base[t], v, step);
  }

  /** Without an error memory and file stay level, and a worker on a level table does not fail. */
  ghost predicate KeepsCalm(job: Job, pool: Pool, step: Step, e: Effect, pool': Pool)
    requires JobOk(job) && step.table in job.sources
  {
    Quiet(step) ==>
      && (pool.file == pool.memory ==> pool'.file == pool'.memory)
      && var src, v := job.sources[step.table], ViewOf(pool, step.table);
         Level(src, v) ==> !e.worker.Failed? && Level(src, After(v, e))
  }

  lemma StepMoves(job: Job, pool: Pool, step: Step) returns (e: Effect, pool': Pool)
    requires JobOk(job) && Steps(job.sources, job.n, pool, step) && TableOk(job, pool, step.table)
    ensures pool' == Next(job.sources, job.n, pool, step)
    ensures Moved(pool, step.table, e, pool') && Sound(job, ViewOf(pool, step.table), step.table, e)
    ensures KeepsCalm(job, pool, step, e, pool')
  {
    e := ActSound(job, ViewOf(pool, step.table), step);
    pool' := Next(job.sources, job.n, pool, step);
    MapsMove(pool, step.table, e, pool');
  }

  lemma MapsMove(pool: Pool, t: string, e: Effect, pool': Pool)
    requires t in pool.dest && t in pool.workers
    requires var memory := if e.write.Some? then pool.memory[t := e.write.value] else pool.memory;
      pool' == Pool(pool.dest[t := e.dest], memory, if e.saved then memory else pool.file, pool.workers[t := e.worker],
        Add(pool.summary, e.counts))
    ensures Moved(pool, t, e, pool')
  {}

  /** Another table's save brings memory and file level. */
  lemma OtherSaveOk(src: Source, n: nat, base: nat, v: View)
    requires Stable(src) && n >= 1 && ViewOk(src, n, base, v)
    ensures ViewOk(src, n, base, v.(file := v.memory))
  {}

  lemma MoveKeepsTable(src: Source, n: nat, base: nat, pool: Pool, t: string, e: Effect, pool': Pool, u: string)
    requires Stable(src) && n >= 1 && u != t && Moved(pool, t, e, pool') && ViewOk(src, n, base, ViewOf(pool, u))
    ensures ViewOk(src, n, base, ViewOf(pool', u))
  {
    OtherSaveOk(src, n, base, ViewOf(pool, u));
    var v := ViewOf(pool', u);
  }

  /** What a table adds to the three counters. */
  ghost predicate SameShares(job: Job, pool: Pool, pool': Pool, u: string) {
    && RowShare(job, pool)(u) == RowShare(job, pool')(u) && BatchShare(job, pool)(u) == BatchShare(job, pool')(u)
    && CompletedShare(pool)(u) == CompletedShare(pool')(u)
  }

  lemma OtherShares(job: Job, pool: Pool, t: string, e: Effect, pool': Pool, u: string)
    requires Moved(pool, t, e, pool') && u != t
    ensures SameShares(job, pool, pool', u)
  {
    var w := ViewOf(pool', u);
  }

  lemma OwnShares(job: Job, pool: Pool, t: string, e: Effect, pool': Pool)
    requires JobOk(job) && t in job.sources && Moved(pool, t, e, pool') && Sound(job, ViewOf(pool, t), t, e)
    ensures RowShare(job, pool')(t) == RowShare(job, pool)(t) + e.counts.rows
    ensures BatchShare(job, pool')(t) == BatchShare(job, pool)(t) + e.counts.batches
    ensures CompletedShare(pool')(t) == CompletedShare(pool)(t) + e.counts.completed
  {
    var v := ViewOf(pool', t);
  }

  lemma SharesMove(job: Job, pool: Pool, t: string, e: Effect, pool': Pool)
    requires JobOk(job) && t in job.work && Moved(pool, t, e, pool') && Sound(job, ViewOf(pool, t), t, e)
    ensures forall u :: u in job.work && u != t ==> RowShare(job, pool)(u) == RowShare(job, pool')(u)
    ensures forall u :: u in job.work && u != t ==> BatchShare(job, pool)(u) == BatchShare(job, pool')(u)
    ensures forall u :: u in job.work && u != t ==> CompletedShare(pool)(u) == CompletedShare(pool')(u)
  {
    forall u | u in job.work && u != t
      ensures SameShares(job, pool, pool', u)
    {
      OtherShares(job, pool, t, e, pool', u);
    }
  }

  lemma MoveKeepsSummary(job: Job, pool: Pool, t: string, e: Effect, pool': Pool)
    requires JobOk(job) && t in job.work && SummaryOk(job, pool)
    requires Moved(pool, t, e, pool') && Sound(job, ViewOf(pool, t), t, e)
    ensures SummaryOk(job, pool')
  {
    SharesMove(job, pool, t, e, pool');
    OwnShares(job, pool, t, e, pool');
    SumChanges(job.work, RowShare(job, pool), RowShare(job, pool'), t);
    SumChanges(job.work, BatchShare(job, pool), BatchShare(job, pool'), t);
    SumChanges(job.work, CompletedShare(pool), CompletedShare(pool'), t);
  }

  /** No entry of the file goes back. */
  ghost predicate NothingLost(before: map<string, Progress>, after: map<string, Progress>) {
    forall u {:trigger Entry(after, u)} ::
      Entry(before, u).rowsCopied <= Entry(after, u).rowsCopied && (Entry(before, u).done ==> Entry(after, u).done)
  }

  /** What a step does to any one table. */
  lemma TableKept(job: Job, pool: Pool, t: string, e: Effect, pool': Pool, u: string)
    requires JobOk(job) && t in job.sources && u in job.sources && TableOk(job, pool, u)
    requires Moved(pool, t, e, pool') && Sound(job, ViewOf(pool, t), t, e)
    ensures TableOk(job, pool', u)
    ensures Entry(pool.file, u).rowsCopied <= Entry(pool'.file, u).rowsCopied
      && (Entry(pool.file, u).done ==> Entry(pool'.file, u).done)
  {
    var v' := ViewOf(pool', u);
    if u != t {
      MoveKeepsTable(job.sources[u], job.n, job.base[u], pool, t, e, pool', u);
    }
  }

  lemma OutsideKept(job: Job, pool: Pool, t: string, e: Effect, pool': Pool, u: string)
    requires u != t && Moved(pool, t, e, pool') && Entry(pool.file, u) == Entry(pool.memory, u)
    ensures Entry(pool'.file, u) == Entry(pool'.memory, u) == Entry(pool.file, u)
  {
    var v' := ViewOf(pool', u);
  }

  lemma MoveKeepsTables(job: Job, pool: Pool, t: string, e: Effect, pool': Pool)
    requires PoolOk(job, pool) && t in job.sources
    requires Moved(pool, t, e, pool') && Sound(job, ViewOf(pool, t), t, e)
    ensures forall u {:trigger TableOk(job, pool', u)} :: u in job.sources ==> TableOk(job, pool', u)
    ensures forall u {:trigger Entry(pool'.file, u)} :: u in job.sources ==>
      Entry(pool.file, u).rowsCopied <= Entry(pool'.file, u).rowsCopied
      && (Entry(pool.file, u).done ==> Entry(pool'.file, u).done)
  {
    forall u | u in job.sources
      ensures TableOk(job, pool', u) && Entry(pool.file, u).rowsCopied <= Entry(pool'.file, u).rowsCopied
      ensures Entry(pool.file, u).done ==> Entry(pool'.file, u).done
    {
      assert TableOk(job, pool, u);
      TableKept(job, pool, t, e, pool', u);
    }
  }

  lemma MoveKeepsOutside(job: Job, pool: Pool, t: string, e: Effect, pool': Pool)
    requires PoolOk(job, pool) && t in job.sources && Moved(pool, t, e, pool')
    ensures forall u {:trigger Entry(pool'.file, u)} :: u !in job.sources ==>
      Entry(pool'.file, u) == Entry(pool'.memory, u) == Entry(pool.file, u)
  {
    forall u | u !in job.sources
      ensures Entry(pool'.file, u) == Entry(pool'.memory, u) == Entry(pool.file, u)
    {
      OutsideKept(job, pool, t, e, pool', u);
    }
  }

  /** Every step keeps the pool in order and loses no progress. */
  lemma MoveKeeps(job: Job, pool: Pool, t: string, e: Effect, pool': Pool)
    requires PoolOk(job, pool) && t in job.sources
    requires Moved(pool, t, e, pool') && Sound(job, ViewOf(pool, t), t, e)
    ensures PoolOk(job, pool') && NothingLost(pool.file, pool'.file)
  {
    MoveKeepsSummary(job, pool, t, e, pool');
    MoveKeepsTables(job, pool, t, e, pool');
    MoveKeepsOutside(job, pool, t, e, pool');
  }

  lemma StepKeeps(job: Job, pool: Pool, step: Step) returns (e: Effect, pool': Pool)
    requires PoolOk(job, pool) && Steps(job.sources, job.n, pool, step)
    ensures pool' == Next(job.sources, job.n, pool, step) && PoolOk(job, pool') && NothingLost(pool.file, pool'.file)
    ensures Moved(pool, step.table, e, pool') && KeepsCalm(job, pool, step, e, pool')
  {
    assert TableOk(job, pool, step.table);
    e, pool' := StepMoves(job, pool, step);
    MoveKeeps(job, pool, step.table, e, pool');
  }

  // ----- schedules -----

  /** The pool after a schedule, or None when a step comes out of turn. */
  ghost function Scheduled(job: Job, pool: Pool, steps: seq<Step>): Option<Pool>
    decreases |steps|
  {
    if steps == [] then Some(pool)
    else
      var before, step := Scheduled(job, pool, steps[..|steps| - 1]), steps[|steps| - 1];
      if before.Some? && Steps(job.sources, job.n, before.value, step)
        then Some(Next(job.sources, job.n, before.value, step)) else None
  }

  /** A run starts with the file in memory and no worker started; a destination table may be ahead
      of its entry. */
  ghost predicate Initial(job: Job, pool: Pool) {
    && JobOk(job) && pool.file == pool.memory && pool.summary == NOTHING
    && forall t {:trigger TableOk(job, pool, t)} :: t in job.sources ==>
         TableOk(job, pool, t) && pool.workers[t] == Waiting && job.base[t] == Entry(pool.memory, t).rowsCopied
  }

  lemma {:induction false} SumZero(work: seq<string>, f: string -> nat)
    requires forall t :: t in work ==> f(t) == 0
    ensures Sum(work, f) == 0
    decreases |work|
  {
    if work != [] {
      SplitLast(work);
      SumZero(work[..|work| - 1], f);
    }
  }

  lemma InitialOk(job: Job, pool: Pool)
    requires Initial(job, pool)
    ensures PoolOk(job, pool)
  {
    forall t | t in job.work
      ensures RowShare(job, pool)(t) == 0 && BatchShare(job, pool)(t) == 0 && CompletedShare(pool)(t) == 0
    {
      assert TableOk(job, pool, t);
    }
    SumZero(job.work, RowShare(job, pool));
    SumZero(job.work, BatchShare(job, pool));
    SumZero(job.work, CompletedShare(pool));
  }

  /** In every state that any interleaving reaches, with errors or a crash at any point: each
      destination table is a key-order prefix of its source, each entry in the file is at or
      behind it, no table's saved progress was lost by another table's save, and the summary
      counters are the sums over the tables. */
  lemma {:induction false} EveryScheduleKeeps(job: Job, pool: Pool, steps: seq<Step>)
    requires Initial(job, pool) && Scheduled(job, pool, steps).Some?
    ensures PoolOk(job, Scheduled(job, pool, steps).value)
      && NothingLost(pool.file, Scheduled(job, pool, steps).value.file)
    decreases |steps|
  {
    if steps == [] {
      InitialOk(job, pool);
    } else {
      var before := Scheduled(job, pool, steps[..|steps| - 1]).value;
      EveryScheduleKeeps(job, pool, steps[..|steps| - 1]);
      var e, after := StepKeeps(job, before, steps[|steps| - 1]);
      LossChains(pool.file, before.file, after.file);
    }
  }

  lemma LossChains(a: map<string, Progress>, b: map<string, Progress>, c: map<string, Progress>)
    requires NothingLost(a, b) && NothingLost(b, c)
    ensures NothingLost(a, c)
  {
    forall u
      ensures Entry(a, u).rowsCopied <= Entry(c, u).rowsCopied && (Entry(a, u).done ==> Entry(c, u).done)
    {
      assert Entry(a, u).rowsCopied <= Entry(b, u).rowsCopied;
    }
  }

  lemma ViewIsStatus(src: Source, n: nat, base: nat, v: View) returns (c: Counts)
    requires Stable(src) && n >= 1 && ViewOk(src, n, base, v)
    ensures Within(|src.rows|, c) && State(v.dest, v.file) == Status(src, c)
  {
    var k: nat :| v.memory.rowsCopied <= k <= |src.rows| && v.dest == Prefix(src, k);
    c := Counts(k, v.file.rowsCopied, v.file.done);
  }

  /** Whatever the pool does, a crash leaves each table in a state that a resumed copy of that
      table goes on from: a prefix in the destination and a file at or behind it. */
  lemma CrashLeavesPrefix(job: Job, pool: Pool, steps: seq<Step>, t: string) returns (c: Counts)
    requires Initial(job, pool) && Scheduled(job, pool, steps).Some? && t in job.sources
    ensures var after := Scheduled(job, pool, steps).value;
      && Within(|job.sources[t].rows|, c) && t in after.dest
      && State(after.dest[t], Entry(after.file, t)) == Status(job.sources[t], c)
  {
    EveryScheduleKeeps(job, pool, steps);
    var after := Scheduled(job, pool, steps).value;
    assert TableOk(job, after, t);
    c := ViewIsStatus(job.sources[t], job.n, job.base[t], ViewOf(after, t));
  }

  // ----- schedules without errors -----

  predicate ErrorFree(steps: seq<Step>) {
    forall i :: 0 <= i < |steps| ==> Quiet(steps[i])
  }

  /** No worker has failed, and no table that is still to be read is ahead of its entry. */
  ghost predicate CalmAt(job: Job, pool: Pool, t: string)
    requires JobOk(job) && t in job.sources
  {
    !ViewOf(pool, t).worker.Failed? && Level(job.sources[t], ViewOf(pool, t))
  }

  ghost predicate Calm(job: Job, pool: Pool) {
    JobOk(job) && pool.file == pool.memory && forall t {:trigger CalmAt(job, pool, t)} :: t in job.sources
                                                ==> CalmAt(job, pool, t)
  }

  ghost predicate Complete(job: Job, pool: Pool) {
    forall t {:trigger pool.workers[t]} :: t in job.sources ==> t in pool.workers && pool.workers[t] == Ended
  }

  /** Tables outside the job stay as they were. */
  ghost predicate Framed(job: Job, before: Pool, after: Pool) {
    && after.dest.Keys == before.dest.Keys && after.workers.Keys == before.workers.Keys
    && before.memory.Keys <= after.memory.Keys <= before.memory.Keys + job.sources.Keys
    && forall u {:trigger ViewOf(after, u)} :: u !in job.sources ==>
         var v, w := ViewOf(before, u), ViewOf(after, u);
         v.dest == w.dest && v.memory == w.memory && v.worker == w.worker
  }

  lemma MoveFramed(job: Job, start: Pool, pool: Pool, t: string, e: Effect, pool': Pool)
    requires t in job.sources && Framed(job, start, pool) && Moved(pool, t, e, pool')
    ensures Framed(job, start, pool')
  {
    forall u | u !in job.sources
      ensures ViewOf(pool', u).dest == ViewOf(start, u).dest && ViewOf(pool', u).memory == ViewOf(start, u).memory
      ensures ViewOf(pool', u).worker == ViewOf(start, u).worker
    {
      var v, w := ViewOf(pool, u), ViewOf(pool', u);
    }
  }

  lemma MoveCalm(job: Job, pool: Pool, step: Step, e: Effect, pool': Pool)
    requires Calm(job, pool) && step.table in job.sources && Moved(pool, step.table, e, pool') && Quiet(step)
      && KeepsCalm(job, pool, step, e, pool')
    ensures Calm(job, pool')
  {
    assert CalmAt(job, pool, step.table);
    forall u | u in job.sources
      ensures CalmAt(job, pool', u)
    {
      var v, w := ViewOf(pool, u), ViewOf(pool', u);
      assert u != step.table ==> CalmAt(job, pool, u);
    }
  }

  lemma {:induction false} CalmSchedule(job: Job, pool: Pool, steps: seq<Step>)
    requires Initial(job, pool) && Calm(job, pool) && Scheduled(job, pool, steps).Some? && ErrorFree(steps)
    ensures Calm(job, Scheduled(job, pool, steps).value) && Framed(job, pool, Scheduled(job, pool, steps).value)
    decreases |steps|
  {
    if steps != [] {
      var before, step := Scheduled(job, pool, steps[..|steps| - 1]).value, steps[|steps| - 1];
      CalmSchedule(job, pool, steps[..|steps| - 1]);
      EveryScheduleKeeps(job, pool, steps[..|steps| - 1]);
      var e, after := StepKeeps(job, before, step);
      MoveFramed(job, pool, before, step.table, e, after);
      MoveCalm(job, before, step, e, after);
    }
  }

  // ----- the one outcome -----

  /** A table whose worker has returned without error is copied and marked done. */
  lemma EndedMeans(job: Job, pool: Pool, t: string)
    requires PoolOk(job, pool) && t in job.sources && t in pool.workers && pool.workers[t] == Ended
    ensures var src := job.sources[t];
      && t in pool.dest && pool.dest[t] == Members(src.rows)
      && t in pool.memory && pool.memory[t] == FileOf(src, |src.rows|).(done := true)
  {
    assert TableOk(job, pool, t);
    WholeSpan(job.sources[t].rows);
    var v := ViewOf(pool, t);
  }

  lemma ViewsEqual(job: Job, start: Pool, a: Pool, b: Pool, t: string)
    requires PoolOk(job, a) && Framed(job, start, a) && Complete(job, a)
    requires PoolOk(job, b) && Framed(job, start, b) && Complete(job, b)
    ensures ViewOf(a, t).dest == ViewOf(b, t).dest && ViewOf(a, t).memory == ViewOf(b, t).memory
    ensures ViewOf(a, t).worker == ViewOf(b, t).worker && (t in a.memory <==> t in b.memory)
  {
    if t in job.sources {
      EndedMeans(job, a, t);
      EndedMeans(job, b, t);
    } else {
      var v, w := ViewOf(a, t), ViewOf(b, t);
    }
  }

  /** Complete states without errors are equal: tables, checkpoint, file and counters. */
  lemma CompleteUnique(job: Job, start: Pool, a: Pool, b: Pool)
    requires PoolOk(job, a) && Framed(job, start, a) && Complete(job, a) && Calm(job, a)
    requires PoolOk(job, b) && Framed(job, start, b) && Complete(job, b) && Calm(job, b)
    ensures a == b
  {
    forall t
      ensures ViewOf(a, t).dest == ViewOf(b, t).dest && ViewOf(a, t).memory == ViewOf(b, t).memory
      ensures ViewOf(a, t).worker == ViewOf(b, t).worker && (t in a.memory <==> t in b.memory)
    {
      ViewsEqual(job, start, a, b, t);
    }
    MapsEqual(a, b);
    SumSame(job.work, RowShare(job, a), RowShare(job, b));
    SumSame(job.work, BatchShare(job, a), BatchShare(job, b));
    SumSame(job.work, CompletedShare(a), CompletedShare(b));
  }

  lemma MapsEqual(a: Pool, b: Pool)
    requires a.dest.Keys == b.dest.Keys && a.workers.Keys == b.workers.Keys
    requires forall t {:trigger ViewOf(a, t)} ::
               && ViewOf(a, t).dest == ViewOf(b, t).dest && ViewOf(a, t).memory == ViewOf(b, t).memory
               && ViewOf(a, t).worker == ViewOf(b, t).worker && (t in a.memory <==> t in b.memory)
    ensures a.dest == b.dest && a.memory == b.memory && a.workers == b.workers
  {
    forall t | t in a.dest
      ensures a.dest[t] == b.dest[t]
    {
      var v := ViewOf(a, t);
    }
    forall t | t in a.workers
      ensures a.workers[t] == b.workers[t]
    {
      var v := ViewOf(a, t);
    }
    forall t
      ensures t in a.memory <==> t in b.memory
      ensures t in a.memory && t in b.memory ==> a.memory[t] == b.memory[t]
    {
      var v := ViewOf(a, t);
    }
  }

  /** From level tables any two interleavings that run to the end without errors, one table after
      the other among them, reach the same destination, checkpoint file and summary, with every table copied. */
  lemma SchedulesAgree(job: Job, pool: Pool, one: seq<Step>, other: seq<Step>)
    requires Initial(job, pool) && Calm(job, pool) && ErrorFree(one) && ErrorFree(other)
    requires var a := Scheduled(job, pool, one); a.Some? && Complete(job, a.value)
    requires var b := Scheduled(job, pool, other); b.Some? && Complete(job, b.value)
    ensures Scheduled(job, pool, one) == Scheduled(job, pool, other)
    ensures var a := Scheduled(job, pool, one).value;
      forall t :: t in job.sources ==> t in a.dest && a.dest[t] == Members(job.sources[t].rows) && Entry(a.file, t).done
  {
    EveryScheduleKeeps(job, pool, one);
    EveryScheduleKeeps(job, pool, other);
    CalmSchedule(job, pool, one);
    CalmSchedule(job, pool, other);
    CompleteUnique(job, pool, Scheduled(job, pool, one).value, Scheduled(job, pool, other).value);
    forall t | t in job.sources
      ensures var a := Scheduled(job, pool, one).value;
        t in a.dest && a.dest[t] == Members(job.sources[t].rows) && Entry(a.file, t).done
    {
      EndedMeans(job, Scheduled(job, pool, one).value, t);
    }
  }

  // ----- running to the end is always possible -----

  /** A bound on the steps a table still needs. */
  function Weight(total: nat, v: View): nat {
    var left := if v.memory.rowsCopied <= total then total - v.memory.rowsCopied else 0;
    match v.worker
    case Waiting => 3 * left + 4
    case Reading(_, _) => 3 * left + 3
    case Holding(_, m) => if m <= left then 3 * (left - m) + 4 else 4
    case Closing(_) => 2
    case Ended => 0
    case Failed => 0
  }

  function WeightShare(job: Job, pool: Pool): string -> nat {
    t => if t in job.sources then Weight(|job.sources[t].rows|, ViewOf(pool, t)) else 0
  }

  function NextOf(worker: Worker, t: string): Step {
    match worker
    case Waiting => Start(t)
    case Reading(_, _) => Commit(t)
    case Holding(_, _) => Save(t, true)
    case Closing(_) => Close(t, true)
    case Ended => Fail(t)
    case Failed => Fail(t)
  }

  lemma WeightDrops(src: Source, n: nat, base: nat, v: View, t: string)
    requires Stable(src) && n >= 1 && ViewOk(src, n, base, v) && !v.worker.Ended? && !v.worker.Failed? && Level(src, v)
    ensures var step := NextOf(v.worker, t);
      Enabled(v.worker, v.memory, step)
        && Weight(|src.rows|, After(v, Act(src, n, v.dest, v.memory, v.worker, step))) < Weight(|src.rows|, v)
  {
    if v.worker.Reading? {
      CommitOk(src, n, base, v, t);
    }
  }

  lemma WeightMoves(job: Job, pool: Pool, t: string, e: Effect, pool': Pool)
    requires JobOk(job) && t in job.sources && Moved(pool, t, e, pool')
    requires Weight(|job.sources[t].rows|, After(ViewOf(pool, t), e)) < Weight(|job.sources[t].rows|, ViewOf(pool, t))
    ensures Sum(job.work, WeightShare(job, pool')) < Sum(job.work, WeightShare(job, pool))
  {
    forall u | u in job.work && u != t
      ensures WeightShare(job, pool)(u) == WeightShare(job, pool')(u)
    {
      var w := ViewOf(pool', u);
    }
    var v := ViewOf(pool', t);
    SumChanges(job.work, WeightShare(job, pool), WeightShare(job, pool'), t);
  }

  /** A worker that has not returned can take its next step, and is then closer to the end. */
  lemma TakeStep(job: Job, pool: Pool, t: string) returns (step: Step, pool': Pool)
    requires PoolOk(job, pool) && Calm(job, pool) && t in job.sources && t in pool.workers && pool.workers[t] != Ended
    ensures Quiet(step) && Steps(job.sources, job.n, pool, step) && pool' == Next(job.sources, job.n, pool, step)
    ensures PoolOk(job, pool') && Calm(job, pool')
    ensures Sum(job.work, WeightShare(job, pool')) < Sum(job.work, WeightShare(job, pool))
  {
    assert TableOk(job, pool, t) && CalmAt(job, pool, t);
    var v := ViewOf(pool, t);
    step := NextOf(v.worker, t);
    WeightDrops(job.sources[t], job.n, job.base[t], v, t);
    var e;
    e, pool' := StepKeeps(job, pool, step);
    var own := ActSound(job, v, step);
    assert After(v, own) == After(v, e) by {
      var w := ViewOf(pool', t);
      ViewAfterOwn(job, pool, step);
    }
    WeightMoves(job, pool, t, e, pool');
    MoveCalm(job, pool, step, e, pool');
  }

  lemma ViewAfterOwn(job: Job, pool: Pool, step: Step)
    requires Steps(job.sources, job.n, pool, step)
    ensures ViewOf(Next(job.sources, job.n, pool, step), step.table)
         == After(ViewOf(pool, step.table),
           Act(job.sources[step.table], job.n, pool.dest[step.table], Entry(pool.memory, step.table),
             pool.workers[step.table], step))
  {}

  lemma {:induction false} ScheduledBehind(job: Job, pool: Pool, step: Step, rest: seq<Step>)
    requires Steps(job.sources, job.n, pool, step)
    ensures Scheduled(job, pool, [step] + rest) == Scheduled(job, Next(job.sources, job.n, pool, step), rest)
    decreases |rest|
  {
    var steps := [step] + rest;
    if rest == [] {
      assert steps[..0] == [];
    } else {
      assert steps[..|steps| - 1] == [step] + rest[..|rest| - 1];
      ScheduledBehind(job, pool, step, rest[..|rest| - 1]);
    }
  }

  lemma Unfinished(job: Job, pool: Pool) returns (t: Option<string>)
    requires PoolOk(job, pool)
    ensures if t.None? then Complete(job, pool)
            else t.value in job.sources && t.value in pool.workers && pool.workers[t.value] != Ended
  {
    if u :| u in job.sources && u in pool.workers && pool.workers[u] != Ended {
      return Some(u);
    }
    forall u | u in job.sources
      ensures u in pool.workers
    {
      assert TableOk(job, pool, u);
    }
    t := None;
  }

  lemma Prepended(job: Job, pool: Pool, step: Step, rest: seq<Step>, after: Pool, end: Pool)
    requires Steps(job.sources, job.n, pool, step) && after == Next(job.sources, job.n, pool, step) && Quiet(step)
    requires Scheduled(job, after, rest) == Some(end) && ErrorFree(rest)
    ensures Scheduled(job, pool, [step] + rest) == Some(end) && ErrorFree([step] + rest)
  {
    ScheduledBehind(job, pool, step, rest);
  }

  /** From every state without errors, with no table ahead of its entry, there is a schedule that
      runs to the end. */
  lemma {:induction false} CanFinish(job: Job, pool: Pool) returns (steps: seq<Step>, end: Pool)
    requires PoolOk(job, pool) && Calm(job, pool)
    ensures ErrorFree(steps) && Scheduled(job, pool, steps) == Some(end) && Complete(job, end)
    decreases Sum(job.work, WeightShare(job, pool))
  {
    var t := Unfinished(job, pool);
    if t.None? {
      return [], pool;
    }
    var step, after := TakeStep(job, pool, t.value);
    var rest;
    rest, end := CanFinish(job, after);
    Prepended(job, pool, step, rest, after, end);
    steps := [step] + rest;
  }
}
