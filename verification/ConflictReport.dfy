/** When a saved replication conflict report is out of date. */
module ConflictReport {
  import opened Wrappers
  import opened SqlText
  import opened Decimal
  import opened BinlogPosition

  /** Times are nanoseconds; None is the zero time. */
  datatype Report = Report(failureType: string, endFile: string, endPos: nat, generatedAt: Option<int>)

  datatype Checkpoint = Checkpoint(file: string, pos: nat, updatedAt: Option<int>)

  predicate Blank(s: string) {
    TrimSpace(s) == ""
  }

  predicate Positioned(report: Report, checkpoint: Checkpoint) {
    !Blank(report.endFile) && report.endPos > 0 && !Blank(checkpoint.file) && checkpoint.pos > 0
  }

  /** isStaleConflictReport: by position if both sides have one, else by time. */
  predicate IsStale(report: Report, checkpoint: Option<Checkpoint>) {
    checkpoint.Some? && !Blank(report.failureType)
    && var c := checkpoint.value;
       if Positioned(report, c) then PositionAfter(c.file, c.pos, report.endFile, report.endPos)
       else c.updatedAt.Some? && report.generatedAt.Some? && c.updatedAt.value > report.generatedAt.value
  }

  lemma {:induction false} TrimLeftKeeps(s: string, c: char)
    requires c in s && !IsSpace(c)
    ensures c in TrimLeft(s)
  {
    if IsSpace(s[0]) {
      assert s == [s[0]] + s[1..];
      TrimLeftKeeps(s[1..], c);
    }
  }

  lemma {:induction false} TrimRightKeeps(s: string, c: char)
    requires c in s && !IsSpace(c)
    ensures c in TrimRight(s)
  {
    if IsSpace(s[|s| - 1]) {
      assert s == s[..|s| - 1] + [s[|s| - 1]];
      TrimRightKeeps(s[..|s| - 1], c);
    }
  }

  lemma LogNameNotBlank(base: string, n: nat)
    ensures !Blank(LogName(base, n))
  {
    var s := LogName(base, n);
    assert s[|base|] == '.';
    TrimLeftKeeps(s, '.');
    TrimRightKeeps(TrimLeft(s), '.');
  }

  function At(base: string, p: Position, updatedAt: Option<int>): Option<Checkpoint> {
    Some(Checkpoint(LogName(base, p.number), p.offset, updatedAt))
  }

  /** Among the logs of one server a report is out of date exactly when the checkpoint has passed
      the position up to which the report says changes were applied. */
  lemma StaleIffPassed(base: string, failureType: string, end: Position, generatedAt: Option<int>, p: Position,
                       updatedAt: Option<int>)
    requires base != [] && end.number < TWO_TO_64 && p.number < TWO_TO_64 && end.offset > 0 && p.offset > 0
    ensures IsStale(Report(failureType, LogName(base, end.number), end.offset, generatedAt), At(base, p, updatedAt))
       <==> !Blank(failureType) && PositionLess(end, p)
  {
    LogNameNotBlank(base, end.number);
    LogNameNotBlank(base, p.number);
    PositionTests(base, p, end);
  }

  /** A report that is out of date stays so as the checkpoint moves on, in position and in time,
      with a position on both checkpoints or on neither. */
  lemma StaysStale(report: Report, base: string, p: Position, q: Position, from: Option<int>, to: Option<int>,
                   end: Position)
    requires base != [] && p.number < TWO_TO_64 && q.number < TWO_TO_64 && end.number < TWO_TO_64
    requires p.offset > 0 && q.offset > 0 && !PositionLess(q, p)
    requires from.Some? ==> to.Some? && from.value <= to.value
    requires Blank(report.endFile) || report.endPos == 0
      || (report.endFile == LogName(base, end.number) && report.endPos == end.offset)
    requires IsStale(report, At(base, p, from))
    ensures IsStale(report, At(base, q, to))
  {
    if !Blank(report.endFile) && report.endPos > 0 {
      StaleIffPassed(base, report.failureType, end, report.generatedAt, p, from);
      StaleIffPassed(base, report.failureType, end, report.generatedAt, q, to);
    }
  }
}
