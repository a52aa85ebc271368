/** Decimal text of integers: strconv.FormatUint, FormatInt, ParseUint and ParseInt. */
module Decimal {
  import opened Wrappers

  const TWO_TO_63 := 0x8000_0000_0000_0000
  const TWO_TO_64 := 0x1_0000_0000_0000_0000

  predicate IsDigit(c: char) { '0' <= c <= '9' }

  predicate AllDigits(s: string) {
    forall i :: 0 <= i < |s| ==> IsDigit(s[i])
  }

  function Digit(d: nat): (c: char)
    requires d < 10
    ensures IsDigit(c) && c as int - '0' as int == d
  {
    ('0' as int + d) as char
  }

  /** The text of n without leading zeros. */
  function Format(n: nat): (s: string)
    ensures s != [] && AllDigits(s)
  {
    if n < 10 then [Digit(n)] else Format(n / 10) + [Digit(n % 10)]
  }

  /** The number that a digit string denotes; leading zeros do not count. */
  function Value(s: string): nat
    requires AllDigits(s)
  {
    if s == [] then 0 else Value(s[..|s| - 1]) * 10 + (s[|s| - 1] as int - '0' as int)
  }

  lemma {:induction false} ValueFormat(n: nat)
    ensures Value(Format(n)) == n
  {
    if n >= 10 {
      ValueFormat(n / 10);
      assert Format(n)[..|Format(n)| - 1] == Format(n / 10);
    }
  }

  /** Leading zeros do not change the number. */
  lemma {:induction false} ValueLeadingZero(s: string)
    requires AllDigits(s)
    ensures AllDigits("0" + s) && Value("0" + s) == Value(s)
  {
    if s != [] {
      ValueLeadingZero(s[..|s| - 1]);
      assert ("0" + s)[..|s|] == "0" + s[..|s| - 1];
    }
  }

  /** strconv.ParseUint(s, 10, 64): no sign, no other character, no overflow. */
  function ParseUint(s: string): Option<nat> {
    if s == [] || !AllDigits(s) || Value(s) >= TWO_TO_64 then None else Some(Value(s))
  }

  function FormatInt(i: int): string {
    if i < 0 then "-" + Format(-i) else Format(i)
  }

  /** strconv.ParseInt(s, 10, 64): one optional sign. */
  function ParseInt(s: string): Option<int> {
    if s == [] then None
    else
      var signed := s[0] == '+' || s[0] == '-';
      var digits := if signed then s[1..] else s;
      var parsed := ParseUint(digits);
      if parsed.None? then None
      else
        var n: int := parsed.value;
        var i := if s[0] == '-' then -n else n;
        if -TWO_TO_63 <= i < TWO_TO_63 then Some(i) else None
  }

  /** Parsing what was formatted gives the number back. */
  lemma ParseFormat(n: nat)
    ensures ParseUint(Format(n)) == if n < TWO_TO_64 then Some(n) else None
  {
    ValueFormat(n);
  }

  lemma ParseFormatInt(i: int)
    requires -TWO_TO_63 <= i < TWO_TO_63
    ensures ParseInt(FormatInt(i)) == Some(i)
  {
    if i < 0 {
      ParseFormat(-i);
      assert FormatInt(i)[1..] == Format(-i);
    } else {
      ParseFormat(i);
      assert IsDigit(Format(i)[0]);
    }
  }
}
