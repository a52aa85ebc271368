/** Applying a window of batches: each batch and the destination's own checkpoint row in
    one destination transaction. */
module BinlogApply {
  import opened Wrappers
  import opened RowReplay
  import opened BinlogBatches

  type Name = (string, string)
  type Database = map<Name, Table>

  /** Rejection of a transaction: by the destination, or because a required change touched no row. */
  datatype TxError = NoSuchTable | Sql(error: SqlError) | ZeroRows

  /** The statements of one destination transaction. */
  function ExecEvents(db: Database, events: seq<ApplyEvent>): Result<Database, TxError>
    decreases |events|
  {
    if events == [] then Ok(db)
    else
      var e := events[0];
      var name := (e.schema, e.table);
      if name !in db then Err(NoSuchTable)
      else
        match Exec(db[name], e.statement)
        case Failed(error) => Err(Sql(error))
        case Done(t, affected) =>
          if e.requireRowsAffected && affected == 0 then Err(ZeroRows) else ExecEvents(db[name := t], events[1..])
  }

  /** A binlog position as the checkpoint row stores it. */
  datatype Mark = Mark(file: string, pos: nat)

  /** What survives a crash of the tool: the destination's tables and its checkpoint row. */
  datatype Durable = Durable(tables: Database, mark: Option<Mark>)

  predicate RowsOnly(batches: seq<Batch>) {
    forall i :: 0 <= i < |batches| ==> batches[i].payload.RowPayload?
  }

  /** The committed effect of one batch: its rows and its end position together. */
  function Commit(d: Durable, b: Batch): Result<Durable, TxError>
    requires b.payload.RowPayload?
  {
    if b.Count() == 0 then Ok(d)
    else
      match ExecEvents(d.tables, b.payload.events)
      case Err(e) => Err(e)
      case Ok(tables) => Ok(Durable(tables, Some(Mark(b.endFile, b.endPos))))
  }

  /** The committed effect of the first k batches. */
  function CommitTo(d: Durable, batches: seq<Batch>, k: nat): Result<Durable, TxError>
    requires RowsOnly(batches) && k <= |batches|
  {
    if k == 0 then Ok(d)
    else
      match CommitTo(d, batches, k - 1)
      case Err(error) => Err(error)
      case Ok(e) => Commit(e, batches[k - 1])
  }

  /** The number of events in the first k batches. */
  function TotalTo(batches: seq<Batch>, k: nat): nat
    requires k <= |batches|
  {
    if k == 0 then 0 else TotalTo(batches, k - 1) + batches[k - 1].Count()
  }

  /** The last position that the first k batches commit, or where they start. */
  function EndTo(start: Mark, batches: seq<Batch>, k: nat): Mark
    requires k <= |batches|
  {
    if k == 0 then start
    else if batches[k - 1].Count() == 0 then EndTo(start, batches, k - 1)
    else Mark(batches[k - 1].endFile, batches[k - 1].endPos)
  }

  /** The first k batches stay within --max-events; 0 means no limit. */
  predicate Within(limit: nat, batches: seq<Batch>, k: nat)
    requires k <= |batches|
  {
    limit == 0 || TotalTo(batches, k) <= limit
  }

  /** What the surroundings do while one batch is handled. A commit that reports an error,
      and a crash, may come before or after the commit became durable. */
  datatype Fault =
    | NoFault
    | LagExceeded
    | BeginFails
    | StatementFails
    | CheckpointWriteFails
    | CommitFails(durable: bool)
    | Crash(durable: bool)

  datatype StopReason =
    | LagLimit
    | FirstTransactionTooLarge
    | InvalidBatch
    | BeginError
    | TransactionRejected(error: TxError)
    | StatementError
    | CheckpointError
    | CommitError

  datatype RunEnd =
    | Applied(end: Mark, events: nat)
    | Stopped(reason: StopReason, appliedTo: Mark)
    | Crashed

  datatype TxEnd = Kept | Refused(reason: StopReason) | Died

  /** The batches [0, k) are what the limit admits: they fit, and the next one would not. */
  predicate Longest(limit: nat, batches: seq<Batch>, k: nat) {
    k <= |batches| && Within(limit, batches, k) && (k < |batches| ==> !Within(limit, batches, k + 1))
  }

  /** What one run over a window did: exactly the first k batches became durable, each with
      its end as the checkpoint row, whatever ended the run. */
  ghost predicate WindowRun(before: Durable, after: Durable, batches: seq<Batch>, start: Mark, limit: nat, end: RunEnd,
                            k: nat) {
    && RowsOnly(batches) && k <= |batches|
    && CommitTo(before, batches, k) == Ok(after)
    && Within(limit, batches, k)
    && (forall i :: 0 <= i < k ==> Usable(batches[i]))
    && match end
       case Crashed => true
       case Applied(mark, events) =>
         mark == EndTo(start, batches, k) && events == TotalTo(batches, k) && Longest(limit, batches, k)
         && !FirstTooLarge(limit, batches, k)
       case Stopped(reason, mark) =>
         && (mark == EndTo(start, batches, k)
             || (k > 0 && reason == CommitError && mark == EndTo(start, batches, k - 1)))
         && (reason == FirstTransactionTooLarge ==> FirstTooLarge(limit, batches, k))
         && (reason == InvalidBatch || reason.TransactionRejected? ==>
               k < |batches| && batches[k].Count() > 0 && !FirstTooLarge(limit, batches, k))
         && (reason == InvalidBatch ==> !Usable(batches[k]))
         && (reason.TransactionRejected? ==> ExecEvents(after.tables, batches[k].payload.events) == Err(reason.error))
  }

  /** Batch k is the first with events and alone exceeds the limit. */
  predicate FirstTooLarge(limit: nat, batches: seq<Batch>, k: nat) {
    k < |batches| && TotalTo(batches, k) == 0 && 0 < limit < batches[k].Count()
  }

  predicate Usable(b: Batch) {
    b.Count() > 0 ==> b.endFile != "" && b.endPos > 0
  }

  /** How the loop goes on after one batch. */
  datatype Round = GoOn | LimitReached | Over(end: RunEnd)

  /** The destination server as the replay uses it. */
  class Destination {
    var tables: Database
    var mark: Option<Mark>

    constructor (tables: Database)
      ensures this.tables == tables && this.mark == None
    {
      this.tables, this.mark := tables, None;
    }

    ghost function State(): Durable
      reads this
    {
      Durable(tables, mark)
    }

    /** One transaction: all statements and the checkpoint row, or nothing. */
    method ApplyTransaction(events: seq<ApplyEvent>, end: Mark, fault: Fault) returns (r: TxEnd)
      modifies this
      ensures r.Kept? ==> ExecEvents(old(tables), events) == Ok(tables) && mark == Some(end)
      ensures !r.Kept? ==>
        || State() == old(State())
        || (ExecEvents(old(tables), events) == Ok(tables) && mark == Some(end)
           && (r.Died? || r == Refused(CommitError)))
      ensures r.Refused? ==> r.reason !in {LagLimit, FirstTransactionTooLarge, InvalidBatch}
      ensures r.Refused? && r.reason.TransactionRejected? ==>
        State() == old(State()) && ExecEvents(old(tables), events) == Err(r.reason.error)
      ensures fault == NoFault ==>
        if ExecEvents(old(tables), events).Ok? then r.Kept?
        else r == Refused(TransactionRejected(ExecEvents(old(tables), events).error))
    {
      if fault.BeginFails? {
        return Refused(BeginError);
      }
      var work := tables;
      var i := 0;
      while i < |events|
        invariant 0 <= i <= |events|
        invariant ExecEvents(work, events[i..]) == ExecEvents(tables, events)
      {
        var e := events[i];
        assert events[i..][1..] == events[i + 1..];
        var name := (e.schema, e.table);
        if name !in work {
          return Refused(TransactionRejected(NoSuchTable));
        }
        match Exec(work[name], e.statement) {
          case Failed(error) =>
            return Refused(TransactionRejected(Sql(error)));
          case Done(t, affected) =>
            if e.requireRowsAffected && affected == 0 {
              return Refused(TransactionRejected(ZeroRows));
            }
            work := work[name := t];
        }
        i := i + 1;
      }
      if fault.StatementFails? {
        return Refused(StatementError);
      }
      if fault.CheckpointWriteFails? {
        return Refused(CheckpointError);
      }
      if (fault.CommitFails? || fault.Crash?) && !fault.durable {
        return if fault.Crash? then Died else Refused(CommitError);
      }
      tables, mark := work, Some(end);
      return if fault.Crash? then Died else if fault.CommitFails? then Refused(CommitError) else Kept;
    }

    /** The loop body of applyWindowTransactional for a batch with events. */
    method ApplyBatch(batch: Batch, last: Mark, appliedEvents: nat, limit: nat, fault: Fault) returns (r: Round)
      requires batch.payload.RowPayload? && batch.Count() > 0
      modifies this
      ensures r.GoOn? ==>
        && Commit(old(State()), batch) == Ok(State()) && Usable(batch)
        && (limit > 0 ==> appliedEvents + batch.Count() <= limit)
      ensures r.LimitReached? ==> State() == old(State()) && 0 < limit < appliedEvents + batch.Count()
      ensures r.Over? ==> !r.end.Applied?
      ensures r.Over? && State() != old(State()) ==>
        && Commit(old(State()), batch) == Ok(State()) && Usable(batch)
        && (limit > 0 ==> appliedEvents + batch.Count() <= limit)
        && (r.end.Stopped? ==> r.end.reason == CommitError)
      ensures r.Over? && r.end.Stopped? ==> r.end.appliedTo == last
      ensures r.Over? && r.end.Stopped? && r.end.reason == FirstTransactionTooLarge ==>
        appliedEvents == 0 && 0 < limit < batch.Count()
      ensures fault == NoFault && r.Over? ==> EndsByItself(r.end)
      ensures r.Over? && r.end.Stopped? && (r.end.reason == InvalidBatch || r.end.reason.TransactionRejected?) ==>
        !(appliedEvents == 0 && 0 < limit < batch.Count())
      ensures r.Over? && r.end.Stopped? && r.end.reason == InvalidBatch ==> !Usable(batch)
      ensures r.Over? && r.end.Stopped? && r.end.reason.TransactionRejected? ==>
        ExecEvents(old(tables), batch.payload.events) == Err(r.end.reason.error)
      ensures r.LimitReached? ==> appliedEvents > 0
    {
      if fault.LagExceeded? {
        return Over(Stopped(LagLimit, last));
      }
      if limit > 0 {
        if batch.Count() > limit && appliedEvents == 0 {
          return Over(Stopped(FirstTransactionTooLarge, last));
        }
        if appliedEvents + batch.Count() > limit {
          return LimitReached;
        }
      }
      if batch.endFile == "" || batch.endPos == 0 {
        return Over(Stopped(InvalidBatch, last));
      }
      var end := ApplyTransaction(batch.payload.events, Mark(batch.endFile, batch.endPos), fault);
      match end {
        case Kept => return GoOn;
        case Died => return Over(Crashed);
        case Refused(reason) => return Over(Stopped(reason, last));
      }
    }

    /** applyWindowTransactional on loaded batches of rows; k counts the batches that became durable. */
    method ApplyWindow(batches: seq<Batch>, start: Mark, limit: nat, faults: seq<Fault>)
      returns (end: RunEnd, ghost k: nat)
      requires RowsOnly(batches)
      modifies this
      ensures WindowRun(old(State()), State(), batches, start, limit, end, k)
      ensures Faultless(faults) ==> EndsByItself(end)
    {
      ghost var before := State();
      var last := start;
      var appliedEvents := 0;
      var i := 0;
      while i < |batches|
        invariant 0 <= i <= |batches|
        invariant CommitTo(before, batches, i) == Ok(State())
        invariant last == EndTo(start, batches, i) && appliedEvents == TotalTo(batches, i)
        invariant Within(limit, batches, i)
        invariant forall j :: 0 <= j < i ==> Usable(batches[j])
      {
        var batch := batches[i];
        if batch.Count() > 0 {
          ghost var done := State();
          var r := ApplyBatch(batch, last, appliedEvents, limit, if i < |faults| then faults[i] else NoFault);
          match r {
            case LimitReached => break;
            case Over(e) =>
              k := if State() == done then i else i + 1;
              return e, k;
            case GoOn =>
              last := Mark(batch.endFile, batch.endPos);
              appliedEvents := appliedEvents + batch.Count();
          }
        }
        i := i + 1;
      }
      return Applied(last, appliedEvents), i;
    }
  }

  predicate Faultless(faults: seq<Fault>) {
    forall i :: 0 <= i < |faults| ==> faults[i] == NoFault
  }

  /** Not because of a fault. */
  predicate EndsByItself(end: RunEnd) {
    && !end.Crashed?
    && (end.Stopped? ==> end.reason in {FirstTransactionTooLarge, InvalidBatch} || end.reason.TransactionRejected?)
  }

  /** A run never writes a checkpoint row that lacks its file or position. */
  lemma RowHasPosition(before: Durable, after: Durable, batches: seq<Batch>, start: Mark, limit: nat, end: RunEnd,
                       k: nat)
    requires WindowRun(before, after, batches, start, limit, end, k)
    ensures after.mark == before.mark || (after.mark.Some? && after.mark.value.file != "" && after.mark.value.pos > 0)
  {
    CommittedRow(before, batches, k);
  }

  lemma {:induction false} CommittedRow(d: Durable, batches: seq<Batch>, k: nat)
    requires RowsOnly(batches) && k <= |batches| && CommitTo(d, batches, k).Ok?
    requires forall i :: 0 <= i < k ==> Usable(batches[i])
    ensures var after := CommitTo(d, batches, k).value;
      after.mark == d.mark || (after.mark.Some? && after.mark.value.file != "" && after.mark.value.pos > 0)
  {
    if k > 0 {
      CommittedRow(d, batches, k - 1);
      assert Usable(batches[k - 1]);
    }
  }

  /** Only the first batch with events can be too large alone. */
  lemma {:induction false} TotalGrows(batches: seq<Batch>, i: nat, j: nat)
    requires i <= j <= |batches|
    ensures TotalTo(batches, i) <= TotalTo(batches, j)
    decreases j - i
  {
    if i < j {
      TotalGrows(batches, i, j - 1);
    }
  }

  /** A run without faults refuses to start, before applying anything, exactly when the first
      batch with events alone exceeds the limit. */
  lemma TooLargeExactly(before: Durable, after: Durable, batches: seq<Batch>, start: Mark, limit: nat, end: RunEnd,
                        k: nat)
    requires WindowRun(before, after, batches, start, limit, end, k) && EndsByItself(end)
    ensures (end.Stopped? && end.reason == FirstTransactionTooLarge) <==> exists j: nat ::
                                                                            FirstTooLarge(limit, batches, j)
    ensures (end.Stopped? && end.reason == FirstTransactionTooLarge) ==> TotalTo(batches, k) == 0
  {
    forall j: nat | FirstTooLarge(limit, batches, j)
      ensures end.Stopped? && end.reason == FirstTransactionTooLarge
    {
      if k > j {
        TotalGrows(batches, j + 1, k);
      } else if k < j {
        TotalGrows(batches, k + 1, j);
      }
    }
  }
}
