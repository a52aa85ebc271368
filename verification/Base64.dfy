/** Standard base64 with padding: section 4 of RFC 4648. */
module Base64 {
  import opened Wrappers

  type Octet = x: int | 0 <= x < 256

  type Sextet = x: int | 0 <= x < 64

  function Letter(d: Sextet): char {
    if d < 26 then ('A' as int + d) as char
    else if d < 52 then ('a' as int + (d - 26)) as char
    else if d < 62 then ('0' as int + (d - 52)) as char
    else if d == 62 then '+' else '/'
  }

  function Digit(c: char): (d: Option<Sextet>)
    ensures d.Some? ==> c != '='
  {
    if 'A' <= c <= 'Z' then Some(c as int - 'A' as int)
    else if 'a' <= c <= 'z' then Some(c as int - 'a' as int + 26)
    else if '0' <= c <= '9' then Some(c as int - '0' as int + 52)
    else if c == '+' then Some(62)
    else if c == '/' then Some(63)
    else None
  }

  lemma DigitOfLetter(d: Sextet)
    ensures Digit(Letter(d)) == Some(d) && Letter(d) !in {'=', '\r', '\n'}
  {}

  /** The 24 bits of three octets. */
  function Group(x: int, y: int, z: int): (a: int)
    requires 0 <= x < 256 && 0 <= y < 256 && 0 <= z < 256
    ensures 0 <= a < 0x100_0000
  {
    x * 0x1_0000 + y * 0x100 + z
  }

  /** The i-th letter of a group. */
  function LetterAt(a: int, i: nat): char
    requires 0 <= a < 0x100_0000 && i < 4
  {
    Letter(SextetAt(a, i))
  }

  function SextetAt(a: int, i: nat): (d: int)
    requires 0 <= a < 0x100_0000 && i < 4
    ensures 0 <= d < 64
  {
    if i == 0 then a / 0x4_0000 else if i == 1 then a / 0x1000 % 64 else if i == 2 then a / 64 % 64 else a % 64
  }

  /** EncodeToString: three octets become four letters; the last group is padded. */
  function Encode(data: seq<Octet>): string {
    if data == [] then ""
    else if |data| == 1 then
      var a := Group(data[0], 0, 0); [LetterAt(a, 0), LetterAt(a, 1), '=', '=']
    else if |data| == 2 then
      var a := Group(data[0], data[1], 0); [LetterAt(a, 0), LetterAt(a, 1), LetterAt(a, 2), '=']
    else
      var a := Group(data[0], data[1], data[2]);
      [LetterAt(a, 0), LetterAt(a, 1), LetterAt(a, 2), LetterAt(a, 3)] + Encode(data[3..])
  }

  /** The decoder skips line breaks. */
  function Unbroken(s: string): string {
    if s == [] then [] else (if s[0] == '\r' || s[0] == '\n' then [] else [s[0]]) + Unbroken(s[1..])
  }

  function OctetAt(a: int, i: nat): (x: Octet)
    requires 0 <= a < 0x100_0000 && i < 3
  {
    if i == 0 then a / 0x1_0000 else if i == 1 then a / 0x100 % 0x100 else a % 0x100
  }

  /** The 24 bits of four sextets. */
  function Bits(c: int, d: int, e: int, f: int): (a: int)
    requires 0 <= c < 64 && 0 <= d < 64 && 0 <= e < 64 && 0 <= f < 64
    ensures 0 <= a < 0x100_0000
  {
    c * 0x4_0000 + d * 0x1000 + e * 64 + f
  }

  /** DecodeString without line breaks: groups of four, padding only at the very end. */
  function DecodeGroups(s: string): Option<seq<Octet>>
    decreases |s|
  {
    if s == [] then Some([])
    else if |s| < 4 || Digit(s[0]).None? || Digit(s[1]).None? then None
    else if |s| == 4 && s[2] == '=' && s[3] == '=' then
      Some([OctetAt(Bits(Digit(s[0]).value, Digit(s[1]).value, 0, 0), 0)])
    else if Digit(s[2]).None? then None
    else if |s| == 4 && s[3] == '=' then
      var a := Bits(Digit(s[0]).value, Digit(s[1]).value, Digit(s[2]).value, 0);
      Some([OctetAt(a, 0), OctetAt(a, 1)])
    else if Digit(s[3]).None? then None
    else
      var a := Bits(Digit(s[0]).value, Digit(s[1]).value, Digit(s[2]).value, Digit(s[3]).value);
      var rest := DecodeGroups(s[4..]);
      if rest.None? then None else Some([OctetAt(a, 0), OctetAt(a, 1), OctetAt(a, 2)] + rest.value)
  }

  function Decode(s: string): Option<seq<Octet>> {
    DecodeGroups(Unbroken(s))
  }

  /** Four sextets make up the group, and three octets do. */
  lemma SextetsMakeGroup(a: int)
    requires 0 <= a < 0x100_0000
    ensures Bits(SextetAt(a, 0), SextetAt(a, 1), SextetAt(a, 2), SextetAt(a, 3)) == a
  {
    assert a / 64 / 64 == a / 0x1000 && a / 0x1000 / 64 == a / 0x4_0000;
  }

  lemma OctetsOf(x: Octet, y: Octet, z: Octet)
    ensures var a := Group(x, y, z); OctetAt(a, 0) == x && OctetAt(a, 1) == y && OctetAt(a, 2) == z
  {
    var a := Group(x, y, z);
    assert a / 0x100 == x as int * 0x100 + y && a / 0x1_0000 == x as int;
  }

  /** The padded groups end in zero bits. */
  lemma PaddedSextets(x: Octet, y: Octet)
    ensures SextetAt(Group(x, y, 0), 3) == 0 && SextetAt(Group(x, 0, 0), 2) == 0 && SextetAt(Group(x, 0, 0), 3) == 0
  {
    assert Group(x, y, 0) == (x as int * 0x400 + y as int * 4) * 64;
    assert Group(x, 0, 0) == x as int * 0x400 * 64 && Group(x, 0, 0) / 64 == x as int * 16 * 64;
  }

  lemma LettersDigits(a: int, i: nat)
    requires 0 <= a < 0x100_0000 && i < 4
    ensures Digit(LetterAt(a, i)) == Some(SextetAt(a, i)) && LetterAt(a, i) !in {'=', '\r', '\n'}
  {
    DigitOfLetter(SextetAt(a, i));
  }

  lemma {:induction false} GroupsDecode(data: seq<Octet>)
    ensures DecodeGroups(Encode(data)) == Some(data)
    decreases |data|
  {
    if data == [] {
    } else if |data| == 1 {
      OneOctet(data[0]);
      assert data == [data[0]];
    } else if |data| == 2 {
      TwoOctets(data[0], data[1]);
      assert data == [data[0], data[1]];
    } else {
      GroupsDecode(data[3..]);
      ThreeOctets(data[0], data[1], data[2], Encode(data[3..]), data[3..]);
      assert data == [data[0], data[1], data[2]] + data[3..];
    }
  }

  lemma GroupDigits(a: int)
    requires 0 <= a < 0x100_0000
    ensures forall i: nat {:trigger LetterAt(a, i)} :: i < 4
              ==> Digit(LetterAt(a, i)) == Some(SextetAt(a, i)) && LetterAt(a, i) !in {'=', '\r', '\n'}
  {
    forall i: nat | i < 4
      ensures Digit(LetterAt(a, i)) == Some(SextetAt(a, i)) && LetterAt(a, i) !in {'=', '\r', '\n'}
    {
      LettersDigits(a, i);
    }
  }

  lemma OneOctet(x: Octet)
    ensures DecodeGroups(Encode([x])) == Some([x])
  {
    GroupDigits(Group(x, 0, 0));
    SextetsMakeGroup(Group(x, 0, 0));
    PaddedSextets(x, 0);
    OctetsOf(x, 0, 0);
  }

  lemma TwoOctets(x: Octet, y: Octet)
    ensures DecodeGroups(Encode([x, y])) == Some([x, y])
  {
    GroupDigits(Group(x, y, 0));
    SextetsMakeGroup(Group(x, y, 0));
    PaddedSextets(x, y);
    OctetsOf(x, y, 0);
  }

  lemma ThreeOctets(x: Octet, y: Octet, z: Octet, rest: string, data: seq<Octet>)
    requires DecodeGroups(rest) == Some(data)
    ensures var a := Group(x, y, z);
      DecodeGroups([LetterAt(a, 0), LetterAt(a, 1), LetterAt(a, 2), LetterAt(a, 3)] + rest) == Some([x, y, z] + data)
  {
    var a := Group(x, y, z);
    GroupDigits(a);
    SextetsMakeGroup(a);
    OctetsOf(x, y, z);
    assert ([LetterAt(a, 0), LetterAt(a, 1), LetterAt(a, 2), LetterAt(a, 3)] + rest)[4..] == rest;
  }

  lemma {:induction false} NothingBroken(s: string)
    requires forall i :: 0 <= i < |s| ==> s[i] != '\r' && s[i] != '\n'
    ensures Unbroken(s) == s
  {
    if s != [] {
      NothingBroken(s[1..]);
      assert s == [s[0]] + s[1..];
    }
  }

  lemma {:induction false} NoLineBreaks(data: seq<Octet>)
    ensures forall i :: 0 <= i < |Encode(data)| ==> Encode(data)[i] != '\r' && Encode(data)[i] != '\n'
    decreases |data|
  {
    if data == [] {
    } else if |data| == 1 {
      GroupDigits(Group(data[0], 0, 0));
    } else if |data| == 2 {
      GroupDigits(Group(data[0], data[1], 0));
    } else {
      GroupDigits(Group(data[0], data[1], data[2]));
      NoLineBreaks(data[3..]);
    }
  }

  /** Decoding what was encoded gives the octets back. */
  lemma DecodeEncode(data: seq<Octet>)
    ensures Decode(Encode(data)) == Some(data)
  {
    NoLineBreaks(data);
    NothingBroken(Encode(data));
    GroupsDecode(data);
  }

  lemma OneGroup(x: Octet, y: Octet, z: Octet)
    ensures var a := Group(x, y, z);
      Encode([x, y, z]) == [LetterAt(a, 0), LetterAt(a, 1), LetterAt(a, 2), LetterAt(a, 3)]
  {
    assert [x, y, z][3..] == [];
  }

  /** The padding: the test vectors of section 10 of RFC 4648 for one to three octets. */
  lemma TestVectors()
    ensures Encode([102]) == "Zg==" && Encode([102, 111]) == "Zm8=" && Encode([102, 111, 111]) == "Zm9v"
  {
    OneGroup(102, 111, 111);
  }

  /** The alphabet of section 4 of RFC 4648: where its runs begin and end, and its two signs. */
  lemma Alphabet()
    ensures Encode([0, 6, 90]) == "AAZa" && Encode([207, 79, 254]) == "z0/+"
  {
    OneGroup(0, 6, 90);
    OneGroup(207, 79, 254);
  }
}
