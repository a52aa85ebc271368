/** The order on binlog file names and positions. */
module BinlogPosition {
  import opened Ordering
  import opened Decimal
  import opened Wrappers

  /** strings.LastIndexByte; -1 when there is none. */
  function LastIndex(s: string, c: char): (i: int)
    ensures -1 <= i < |s|
    ensures i >= 0 ==> s[i] == c
    ensures forall j :: i < j < |s| ==> s[j] != c
  {
    if s == [] then -1
    else if s[|s| - 1] == c then |s| - 1
    else LastIndex(s[..|s| - 1], c)
  }

  /** A log file name as its prefix and sequence number. */
  function SplitBinlogFile(name: string): Option<(string, nat)> {
    var dot := LastIndex(name, '.');
    if dot <= 0 || dot >= |name| - 1 then None
    else
      match ParseUint(name[dot + 1..])
      case None => None
      case Some(number) => Some((name[..dot], number))
  }

  /** strings.Compare. */
  function CompareNames(left: string, right: string): int {
    if Less(left, right) then -1 else if left == right then 0 else 1
  }

  function CompareBinlogFile(left: string, right: string): int {
    if left == right then 0
    else
      match (SplitBinlogFile(left), SplitBinlogFile(right))
      case (Some((lPrefix, lNum)), Some((rPrefix, rNum))) =>
        if lPrefix == rPrefix then (if lNum < rNum then -1 else 1)
        else CompareNames(left, right)
      case (_, _) => CompareNames(left, right)
  }

  predicate PositionBefore(file: string, pos: nat, targetFile: string, targetPos: nat) {
    var cmp := CompareBinlogFile(file, targetFile);
    if cmp < 0 then true else if cmp > 0 then false else pos < targetPos
  }

  predicate PositionAfter(file: string, pos: nat, targetFile: string, targetPos: nat) {
    var cmp := CompareBinlogFile(file, targetFile);
    if cmp > 0 then true else if cmp < 0 then false else pos > targetPos
  }

  predicate PositionReachedOrPassed(file: string, pos: nat, targetFile: string, targetPos: nat) {
    var cmp := CompareBinlogFile(file, targetFile);
    if cmp > 0 then true else if cmp < 0 then false else pos >= targetPos
  }

  // ----- names that a server writes -----

  /** The sequence number padded to the six digits that a server writes; it grows past them. */
  function Padded(n: nat): (s: string)
    ensures s != [] && AllDigits(s)
  {
    Zeros(6 - |Format(n)|) + Format(n)
  }

  function Zeros(k: int): (s: string)
    ensures AllDigits(s)
    decreases if k < 0 then 0 else k
  {
    if k <= 0 then "" else "0" + Zeros(k - 1)
  }

  function LogName(base: string, n: nat): string {
    base + "." + Padded(n)
  }

  lemma {:induction false} ZerosValue(k: int, s: string)
    requires AllDigits(s)
    ensures AllDigits(Zeros(k) + s) && Value(Zeros(k) + s) == Value(s)
    decreases if k < 0 then 0 else k
  {
    if k <= 0 {
      assert Zeros(k) + s == s;
    } else {
      ZerosValue(k - 1, s);
      ValueLeadingZero(Zeros(k - 1) + s);
      assert Zeros(k) + s == "0" + (Zeros(k - 1) + s);
    }
  }

  lemma PaddedParses(n: nat)
    requires n < TWO_TO_64
    ensures ParseUint(Padded(n)) == Some(n)
  {
    ZerosValue(6 - |Format(n)|, Format(n));
    ValueFormat(n);
  }

  lemma LastDot(base: string, tail: string)
    requires AllDigits(tail)
    ensures var name := base + "." + tail;
      LastIndex(name, '.') == |base| && name[..|base|] == base && name[|base| + 1..] == tail
  {
    var name := base + "." + tail;
    assert name[|base|] == '.';
    assert forall j :: |base| < j < |name| ==> name[j] == tail[j - |base| - 1];
  }

  /** The split reads back the name and number from which a server made the file name. */
  lemma SplitLogName(base: string, n: nat)
    requires base != [] && n < TWO_TO_64
    ensures SplitBinlogFile(LogName(base, n)) == Some((base, n))
  {
    PaddedParses(n);
    LastDot(base, Padded(n));
  }

  /** A name splits exactly when it is a prefix that is not empty, a dot, and digits below 2^64. */
  lemma SplitIff(name: string, base: string, n: nat)
    ensures SplitBinlogFile(name) == Some((base, n)) <==>
      base != [] && n < TWO_TO_64
      && exists digits :: digits != [] && AllDigits(digits) && name == base + "." + digits && Value(digits) == n
  {
    var dot := LastIndex(name, '.');
    if SplitBinlogFile(name) == Some((base, n)) {
      assert name == base + "." + name[dot + 1..];
    }
    if digits :| digits != [] && AllDigits(digits) && name == base + "." + digits && Value(digits) == n {
      LastDot(base, digits);
    }
  }

  /** Among the files of one server the comparison is the order of their sequence numbers,
      also across the change from six digits to seven. */
  lemma CompareLogNames(base: string, n: nat, m: nat)
    requires base != [] && n < TWO_TO_64 && m < TWO_TO_64
    ensures CompareBinlogFile(LogName(base, n), LogName(base, m)) == if n < m then -1 else if n == m then 0 else 1
  {
    SplitLogName(base, n);
    SplitLogName(base, m);
  }

  /** Different spellings of one number under one prefix: each compares greater than the other. */
  predicate Respelled(left: string, right: string) {
    left != right && SplitBinlogFile(left).Some? && SplitBinlogFile(left) == SplitBinlogFile(right)
  }

  lemma CompareNamesAntisymmetric(left: string, right: string)
    ensures CompareNames(left, right) == -CompareNames(right, left)
    ensures CompareNames(left, right) == 0 <==> left == right
  {
    LessIsStrictTotal(left, right, left);
  }

  /** The comparison is antisymmetric exactly when the names are not two spellings of one number. */
  lemma CompareAntisymmetricIff(left: string, right: string)
    ensures CompareBinlogFile(left, right) == -CompareBinlogFile(right, left) <==> !Respelled(left, right)
    ensures CompareBinlogFile(left, right) == 0 <==> left == right
  {
    CompareNamesAntisymmetric(left, right);
  }

  lemma RespelledExample()
    ensures CompareBinlogFile("b.1", "b.01") == 1 && CompareBinlogFile("b.01", "b.1") == 1
  {
    assert LastIndex("b.1"[..2], '.') == 1 && LastIndex("b.1", '.') == 1;
    assert LastIndex("b.01"[..3], '.') == 1 && LastIndex("b.01", '.') == 1;
    assert "b.1"[2..] == "1" && "b.01"[2..] == "01" && "b.1"[..1] == "b" && "b.01"[..1] == "b";
    assert Value("1") == 1;
    ValueLeadingZero("1");
    assert "0" + "1" == "01";
  }

  lemma LessAt(a: string, b: string, k: nat)
    requires k < |a| && k < |b| && a[..k] == b[..k] && a[k] < b[k]
    ensures Less(a, b)
  {
    LexLessAt(Codes(a), Codes(b), k);
  }

  lemma {:induction false} LexLessAt(a: seq<int>, b: seq<int>, k: nat)
    requires k < |a| && k < |b| && a[k] < b[k] && forall i :: 0 <= i < k ==> a[i] == b[i]
    ensures LexLess(a, b)
  {
    if k > 0 {
      LexLessAt(a[1..], b[1..], k - 1);
    }
  }

  /** Numbers and plain text mixed: each of these names compares smaller than the next, in a circle. */
  lemma CompareNotTransitive()
    ensures CompareBinlogFile("b.9", "b.10") == -1 && CompareBinlogFile("b.10", "b.2x") == -1
      && CompareBinlogFile("b.2x", "b.9") == -1
  {
    assert LastIndex("b.9"[..2], '.') == 1 && LastIndex("b.9", '.') == 1;
    assert LastIndex("b.10"[..3], '.') == 1 && LastIndex("b.10", '.') == 1;
    assert LastIndex("b.2x"[..3], '.') == 1 && LastIndex("b.2x", '.') == 1;
    assert "b.9"[2..] == "9" && "b.10"[2..] == "10" && "b.2x"[2..] == "2x" && "b.9"[..1] == "b" && "b.10"[..1] == "b";
    assert Value("9") == 9 && "10"[..1] == "1" && Value("1") == 1 && Value("10") == 10;
    assert "2x"[1] == 'x';
    LessAt("b.10", "b.2x", 2);
    LessAt("b.2x", "b.9", 2);
  }

  // ----- positions within the logs of one server -----

  datatype Position = Position(number: nat, offset: nat)

  predicate PositionLess(p: Position, q: Position) {
    p.number < q.number || (p.number == q.number && p.offset < q.offset)
  }

  /** The three position tests are the strict order, its converse and the weak order. */
  lemma PositionTests(base: string, p: Position, q: Position)
    requires base != [] && p.number < TWO_TO_64 && q.number < TWO_TO_64
    ensures PositionBefore(LogName(base, p.number), p.offset, LogName(base, q.number), q.offset) <==> PositionLess(p, q)
    ensures PositionAfter(LogName(base, p.number), p.offset, LogName(base, q.number), q.offset) <==> PositionLess(q, p)
    ensures PositionReachedOrPassed(LogName(base, p.number), p.offset, LogName(base, q.number), q.offset)
      <==> !PositionLess(p, q)
  {
    CompareLogNames(base, p.number, q.number);
  }
}
