/** Any number of runs of the worker pool, each starting from what the one before left: what they
    keep, which tables they can never finish, and when a run can finish at all. */
module PoolRuns {
  import opened Wrappers
  import opened Keyset
  import opened BaselineCopy
  import opened BaselinePool

  // ----- a table whose destination is ahead of its entry -----

  /** The destination holds more rows than the entry, and the worker is not past its first page. */
  ghost predicate Stuck(src: Source, v: View) {
    && (v.worker.Waiting? || v.worker.Reading? || v.worker.Failed?)
    && !v.memory.done && v.file == v.memory
    && exists k: nat :: v.memory.rowsCopied < k <= |src.rows| && v.dest == Prefix(src, k)
  }

  /** No step of its worker gets it on: the first page fails on a duplicate key. */
  lemma StuckAct(src: Source, n: nat, base: nat, v: View, step: Step)
    requires Stable(src) && n >= 1 && ViewOk(src, n, base, v) && Enabled(v.worker, v.memory, step) && Stuck(src, v)
    ensures var e := Act(src, n, v.dest, v.memory, v.worker, step);
      e.dest == v.dest && e.write.None? && !e.saved && Stuck(src, After(v, e))
  {
    if step.Commit? {
      var j := v.memory.rowsCopied;
      var k: nat :| j < k <= |src.rows| && v.dest == Prefix(src, k);
      PageInserts(src, k, j, PageSize(|src.rows|, n, j));
    }
  }

  lemma OwnStepStuck(job: Job, pool: Pool, step: Step)
    requires JobOk(job) && BaselinePool.Steps(job.sources, job.n, pool, step) && TableOk(job, pool, step.table)
    requires Stuck(job.sources[step.table], ViewOf(pool, step.table))
    ensures var v, w := ViewOf(pool, step.table), ViewOf(Next(job.sources, job.n, pool, step), step.table);
      Stuck(job.sources[step.table], w) && w.dest == v.dest && w.memory == v.memory
  {
    StuckAct(job.sources[step.table], job.n, job.base[step.table], ViewOf(pool, step.table), step);
    ViewAfterOwn(job, pool, step);
  }

  lemma OtherStepStuck(src: Source, pool: Pool, t: string, e: Effect, pool': Pool, u: string)
    requires Moved(pool, t, e, pool') && u != t && Stuck(src, ViewOf(pool, u))
    ensures ViewOf(pool', u) == ViewOf(pool, u)
  {
    var w := ViewOf(pool', u);
  }

  lemma StuckStep(job: Job, pool: Pool, step: Step, pool': Pool, t: string)
    requires PoolOk(job, pool) && BaselinePool.Steps(job.sources, job.n, pool, step)
      && pool' == Next(job.sources, job.n, pool, step)
    requires t in job.sources && Stuck(job.sources[t], ViewOf(pool, t))
    ensures var v, w := ViewOf(pool, t), ViewOf(pool', t);
      Stuck(job.sources[t], w) && w.dest == v.dest && w.memory == v.memory
  {
    if step.table == t {
      assert TableOk(job, pool, t);
      OwnStepStuck(job, pool, step);
    } else {
      var e, after := StepKeeps(job, pool, step);
      OtherStepStuck(job.sources[t], pool, step.table, e, after, t);
    }
  }

  lemma {:induction false} StuckSchedule(job: Job, pool: Pool, steps: seq<Step>, t: string)
    requires Initial(job, pool) && Scheduled(job, pool, steps).Some? && t in job.sources
      && Stuck(job.sources[t], ViewOf(pool, t))
    ensures var v, w := ViewOf(pool, t), ViewOf(Scheduled(job, pool, steps).value, t);
      Stuck(job.sources[t], w) && w.dest == v.dest && w.memory == v.memory
    decreases |steps|
  {
    if steps != [] {
      var last := |steps| - 1;
      EveryScheduleKeeps(job, pool, steps[..last]);
      StuckSchedule(job, pool, steps[..last], t);
      StuckStep(job, Scheduled(job, pool, steps[..last]).value, steps[last], Scheduled(job, pool, steps).value, t);
    }
  }

  ghost predicate Finishes(job: Job, pool: Pool, steps: seq<Step>) {
    ErrorFree(steps) && var end := Scheduled(job, pool, steps); end.Some? && Complete(job, end.value)
  }

  /** A run can end with every table copied exactly when no destination table is ahead of its entry. */
  lemma FinishesIff(job: Job, pool: Pool)
    requires Initial(job, pool)
    ensures (exists steps :: Finishes(job, pool, steps)) <==> Calm(job, pool)
  {
    if Calm(job, pool) {
      InitialOk(job, pool);
      var steps, end := CanFinish(job, pool);
      assert Finishes(job, pool, steps);
    }
    forall steps | Finishes(job, pool, steps)
      ensures Calm(job, pool)
    {
      forall t | t in job.sources
        ensures CalmAt(job, pool, t)
      {
        FinishedWasLevel(job, pool, steps, t);
      }
    }
  }

  lemma CalmOrStuck(job: Job, pool: Pool, t: string)
    requires Initial(job, pool) && t in job.sources
    ensures CalmAt(job, pool, t) || Stuck(job.sources[t], ViewOf(pool, t))
  {
    assert TableOk(job, pool, t);
    var src, v := job.sources[t], ViewOf(pool, t);
    var k: nat :| v.memory.rowsCopied <= k <= |src.rows| && v.dest == Prefix(src, k);
  }

  lemma CompleteEnded(job: Job, pool: Pool, t: string)
    requires Complete(job, pool) && t in job.sources
    ensures ViewOf(pool, t).worker == Ended
  {
    var v := ViewOf(pool, t);
  }

  lemma FinishedWasLevel(job: Job, pool: Pool, steps: seq<Step>, t: string)
    requires Initial(job, pool) && Finishes(job, pool, steps) && t in job.sources
    ensures CalmAt(job, pool, t)
  {
    CalmOrStuck(job, pool, t);
    CompleteEnded(job, Scheduled(job, pool, steps).value, t);
    if Stuck(job.sources[t], ViewOf(pool, t)) {
      StuckSchedule(job, pool, steps, t);
    }
  }

  // ----- any number of runs -----

  /** One run of the pool: its page size, the order of its tables, and the steps of its workers up to
      its end or a crash. */
  datatype PoolRun = PoolRun(n: nat, work: seq<string>, steps: seq<Step>)

  /** What a new process finds: the destination and the file. */
  ghost function Restarted(sources: Sources, pool: Pool): Pool {
    Pool(pool.dest, pool.file, pool.file, map t | t in sources :: Waiting, NOTHING)
  }

  ghost function JobOf(sources: Sources, run: PoolRun, file: map<string, Progress>): Job {
    Job(sources, run.n, run.work, map t | t in sources :: Entry(file, t).rowsCopied)
  }

  ghost function AfterRuns(sources: Sources, pool: Pool, runs: seq<PoolRun>): Option<Pool>
    decreases |runs|
  {
    if runs == [] then Some(pool)
    else
      var before, run := AfterRuns(sources, pool, runs[..|runs| - 1]), runs[|runs| - 1];
      if before.None? || !JobOk(JobOf(sources, run, before.value.file)) then None
      else Scheduled(JobOf(sources, run, before.value.file), Restarted(sources, before.value), run.steps)
  }

  /** A table from which copying can be taken up: a prefix in the destination, the entry in the file
      at or behind it. */
  ghost predicate ResumableAt(src: Source, pool: Pool, t: string)
    requires AllFit(src.rows, src.cols)
  {
    t in pool.dest && EntryAt(src, Entry(pool.file, t)) && Ahead(src, Entry(pool.file, t).rowsCopied, pool.dest[t])
  }

  ghost predicate Resumable(sources: Sources, pool: Pool) {
    Ready(sources, 1) && forall t {:trigger sources[t]} :: t in sources ==> ResumableAt(sources[t], pool, t)
  }

  lemma RestartInitial(sources: Sources, pool: Pool, run: PoolRun)
    requires Resumable(sources, pool) && JobOk(JobOf(sources, run, pool.file))
    ensures Initial(JobOf(sources, run, pool.file), Restarted(sources, pool))
  {
    var job, start := JobOf(sources, run, pool.file), Restarted(sources, pool);
    forall t | t in sources
      ensures TableOk(job, start, t) && start.workers[t] == Waiting && job.base[t] == Entry(start.memory, t).rowsCopied
    {
      assert ResumableAt(sources[t], pool, t);
    }
  }

  lemma RunResumable(job: Job, pool: Pool)
    requires PoolOk(job, pool)
    ensures Resumable(job.sources, pool)
  {
    forall t | t in job.sources
      ensures ResumableAt(job.sources[t], pool, t)
    {
      assert TableOk(job, pool, t);
      var src, v := job.sources[t], ViewOf(pool, t);
      var k: nat :| v.memory.rowsCopied <= k <= |src.rows| && v.dest == Prefix(src, k);
    }
  }

  /** Over any number of runs, each crashing or failing anywhere: every destination table stays a
      key-order prefix of its source, its entry in the file stays at or behind it, and no saved
      progress is ever lost. */
  lemma {:induction false} RunsKeep(sources: Sources, pool: Pool, runs: seq<PoolRun>)
    requires Resumable(sources, pool) && AfterRuns(sources, pool, runs).Some?
    ensures Resumable(sources, AfterRuns(sources, pool, runs).value)
    ensures NothingLost(pool.file, AfterRuns(sources, pool, runs).value.file)
    decreases |runs|
  {
    if runs != [] {
      var last := |runs| - 1;
      RunsKeep(sources, pool, runs[..last]);
      var before := AfterRuns(sources, pool, runs[..last]).value;
      var job := JobOf(sources, runs[last], before.file);
      RestartInitial(sources, before, runs[last]);
      EveryScheduleKeeps(job, Restarted(sources, before), runs[last].steps);
      var after := Scheduled(job, Restarted(sources, before), runs[last].steps).value;
      RunResumable(job, after);
      LossChains(pool.file, before.file, after.file);
    }
  }

  /** The destination table holds more rows than its unfinished entry in the file. */
  ghost predicate LeftBehind(src: Source, pool: Pool, t: string) {
    var entry := Entry(pool.file, t);
    t in pool.dest && !entry.done && exists k: nat :: entry.rowsCopied < k <= |src.rows|
                                       && pool.dest[t] == Prefix(src, k)
  }

  /** A crash between commit and save is final: no number of later runs changes that table or its
      entry, whatever the other workers do. */
  lemma {:induction false} LeftBehindForGood(sources: Sources, pool: Pool, runs: seq<PoolRun>, t: string)
    requires Resumable(sources, pool) && AfterRuns(sources, pool, runs).Some? && t in sources
      && LeftBehind(sources[t], pool, t)
    ensures var after := AfterRuns(sources, pool, runs).value;
      t in after.dest && after.dest[t] == pool.dest[t] && Entry(after.file, t) == Entry(pool.file, t)
    decreases |runs|
  {
    if runs != [] {
      var last := |runs| - 1;
      LeftBehindForGood(sources, pool, runs[..last], t);
      RunsKeep(sources, pool, runs[..last]);
      var before := AfterRuns(sources, pool, runs[..last]).value;
      var job := JobOf(sources, runs[last], before.file);
      RestartInitial(sources, before, runs[last]);
      EveryScheduleKeeps(job, Restarted(sources, before), runs[last].steps);
      StuckSchedule(job, Restarted(sources, before), runs[last].steps, t);
      assert TableOk(job, Scheduled(job, Restarted(sources, before), runs[last].steps).value, t);
    }
  }
}
