/** What the rewriter does to a statement, told on the text: references in code are replaced; what
    stands in quotes or comments, and every other character, is copied. */
module RewriteMeaning {
  import opened Wrappers
  import opened SqlText
  import opened SqlRewrite

  /** What is written for text that is read in the given mode. */
  function From(s: string, source: string, sandbox: string, mode: Mode): string
    requires source != []
  {
    Render(Lex(s, source, mode), sandbox)
  }

  lemma OneStep(s: string, source: string, sandbox: string, mode: Mode)
    requires s != [] && source != []
    ensures var r := Scan(s, source, mode);
      From(s, source, sandbox, mode)
      == (if r.reference then sandbox else s[..r.length]) + From(s[r.length..], source, sandbox, r.mode)
  {
    LexHead(s, source, mode, sandbox);
  }

  lemma Glue(a: string, b: string, c: string)
    ensures a + (b + c) == a + b + c
  {}

  // ----- quotes -----

  predicate Quote(q: char) {
    q == '\'' || q == '"'
  }

  function Within(q: char): Mode {
    if q == '\'' then Single else Double
  }

  predicate Lacks(t: string, c: char) {
    forall i :: 0 <= i < |t| ==> t[i] != c
  }

  /** Text in this mode ends with this character. */
  predicate StopsAt(mode: Mode, stop: char) {
    (mode == Single && stop == '\'') || (mode == Double && stop == '"') || (mode == LineComment && stop == '\n')
  }

  lemma StopStep(s: string, source: string, mode: Mode, stop: char)
    requires s != [] && source != [] && StopsAt(mode, stop)
    ensures Scan(s, source, mode) == Scanned(1, if s[0] == stop then Code else mode, false)
  {}

  /** How the text t + mark + rest begins. */
  lemma Begins(t: string, mark: string, rest: string)
    ensures t != [] ==> (t + mark + rest)[..1] == [t[0]] && (t + mark + rest)[1..] == t[1..] + mark + rest
    ensures t == [] ==> (t + mark + rest)[..|mark|] == mark && (t + mark + rest)[|mark|..] == rest
  {}

  lemma HeadBack(t: string, mark: string, rest: string)
    requires t != []
    ensures [t[0]] + (t[1..] + mark + rest) == t + mark + rest
  {}

  lemma {:induction false} ToTheStop(t: string, stop: char, rest: string, source: string, sandbox: string, mode: Mode)
    requires source != [] && StopsAt(mode, stop) && Lacks(t, stop)
    ensures From(t + [stop] + rest, source, sandbox, mode) == t + [stop] + From(rest, source, sandbox, Code)
  {
    var s := t + [stop] + rest;
    Begins(t, [stop], rest);
    OneStep(s, source, sandbox, mode);
    StopStep(s, source, mode, stop);
    if t == [] {
      assert s[0] == stop && t + [stop] == [stop];
    } else {
      assert s[0] == t[0];
      ToTheStop(t[1..], stop, rest, source, sandbox, mode);
      HeadBack(t, [stop], From(rest, source, sandbox, Code));
    }
  }

  lemma {:induction false} ToTheEnd(t: string, source: string, sandbox: string, mode: Mode, stop: char)
    requires source != [] && StopsAt(mode, stop) && Lacks(t, stop)
    ensures From(t, source, sandbox, mode) == t
  {
    if t != [] {
      OneStep(t, source, sandbox, mode);
      StopStep(t, source, mode, stop);
      ToTheEnd(t[1..], source, sandbox, mode, stop);
      assert t == t[..1] + t[1..];
    }
  }

  /** A quoted text is copied, whatever stands in it. */
  lemma QuotedIsCopied(q: char, t: string, rest: string, source: string, sandbox: string)
    requires source != [] && source[0] == '`' && Quote(q) && Lacks(t, q)
    ensures Rewritten([q] + t + [q] + rest, source, sandbox) == [q] + t + [q] + Rewritten(rest, source, sandbox)
  {
    var s := [q] + (t + [q]) + rest;
    Glue([q], t, [q]);
    NoPrefix(s, source);
    OneStep(s, source, sandbox, Code);
    HeadOf(q, t + [q], rest);
    ToTheStop(t, q, rest, source, sandbox, Within(q));
    HeadOf(q, t + [q], Rewritten(rest, source, sandbox));
    Glue([q], t, [q]);
  }

  lemma HeadOf(q: char, a: string, b: string)
    ensures ([q] + a + b)[..1] == [q] && ([q] + a + b)[1..] == a + b && [q] + (a + b) == [q] + a + b
  {}

  /** So is a quoted text that never ends. */
  lemma OpenQuoteIsCopied(q: char, t: string, source: string, sandbox: string)
    requires source != [] && source[0] == '`' && Quote(q) && Lacks(t, q)
    ensures Rewritten([q] + t, source, sandbox) == [q] + t
  {
    var s := [q] + t;
    NoPrefix(s, source);
    OneStep(s, source, sandbox, Code);
    assert s[..1] == [q] && s[1..] == t;
    ToTheEnd(t, source, sandbox, Within(q), q);
  }

  lemma NoPrefix(s: string, source: string)
    requires s != [] && source != [] && s[0] != source[0]
    ensures !HasPrefix(s, source)
  {
    PrefixTail(s, source);
  }

  // ----- comments -----

  /** What begins a line comment: a hash, or two dashes in front of a space, tab or newline. */
  predicate BeginsLine(mark: string, t: string) {
    mark == "#" || (mark == "--" && (t == [] || t[0] == ' ' || t[0] == '\t'))
  }

  lemma EntersLine(mark: string, s: string, tail: string, source: string)
    requires source != [] && source[0] == '`' && s == mark + tail
    requires mark == "#" || (mark == "--" && tail != [] && (tail[0] == ' ' || tail[0] == '\t' || tail[0] == '\n'))
    ensures Scan(s, source, Code) == Scanned(|mark|, LineComment, false) && s[..|mark|] == mark && s[|mark|..] == tail
  {
    assert s[0] == mark[0] && (mark == "--" ==> s[1] == '-' && s[2] == tail[0]);
  }

  /** A line comment is copied, up to and with its newline. */
  lemma LineIsCopied(mark: string, t: string, rest: string, source: string, sandbox: string)
    requires source != [] && source[0] == '`' && Lacks(t, '\n') && BeginsLine(mark, t)
    ensures Rewritten(mark + t + "\n" + rest, source, sandbox) == mark + t + "\n" + Rewritten(rest, source, sandbox)
  {
    var s, tail := mark + t + "\n" + rest, t + "\n" + rest;
    assert s == mark + tail && tail[0] == if t == [] then '\n' else t[0];
    EntersLine(mark, s, tail, source);
    OneStep(s, source, sandbox, Code);
    ToTheStop(t, '\n', rest, source, sandbox, LineComment);
    Glue(mark, t + "\n", Rewritten(rest, source, sandbox));
    Glue(mark, t, "\n");
  }

  /** So is one at the end of the statement. */
  lemma LastLineIsCopied(mark: string, t: string, source: string, sandbox: string)
    requires source != [] && source[0] == '`' && Lacks(t, '\n') && BeginsLine(mark, t) && (mark == "--" ==> t != [])
    ensures Rewritten(mark + t, source, sandbox) == mark + t
  {
    EntersLine(mark, mark + t, t, source);
    OneStep(mark + t, source, sandbox, Code);
    ToTheEnd(t, source, sandbox, LineComment, '\n');
  }

  /** The first end mark of a block comment stands behind t. */
  predicate EndsBehind(t: string) {
    forall i :: 0 <= i < |t| ==> !((t + "*/")[i] == '*' && (t + "*/")[i + 1] == '/')
  }

  lemma BlockStep(s: string, source: string)
    requires s != [] && source != []
    ensures Scan(s, source, BlockComment)
         == if EndsBlockComment(s) then Scanned(2, Code, false) else Scanned(1, BlockComment, false)
  {}

  lemma EndsBehindTail(t: string, rest: string)
    requires t != [] && EndsBehind(t)
    ensures EndsBehind(t[1..]) && !EndsBlockComment(t + "*/" + rest)
  {
    assert forall i :: 0 <= i < |t[1..] + "*/"| ==> (t[1..] + "*/")[i] == (t + "*/")[i + 1];
    assert (t + "*/" + rest)[0] == (t + "*/")[0] && (t + "*/" + rest)[1] == (t + "*/")[1];
  }

  lemma {:induction false} InBlock(t: string, rest: string, source: string, sandbox: string)
    requires source != [] && EndsBehind(t)
    ensures From(t + "*/" + rest, source, sandbox, BlockComment) == t + "*/" + From(rest, source, sandbox, Code)
  {
    var s := t + "*/" + rest;
    Begins(t, "*/", rest);
    OneStep(s, source, sandbox, BlockComment);
    BlockStep(s, source);
    if t == [] {
      assert s[0] == '*' && s[1] == '/' && t + "*/" == "*/";
    } else {
      EndsBehindTail(t, rest);
      InBlock(t[1..], rest, source, sandbox);
      HeadBack(t, "*/", From(rest, source, sandbox, Code));
    }
  }

  /** A block comment is copied, up to its first end mark. */
  lemma BlockIsCopied(t: string, rest: string, source: string, sandbox: string)
    requires source != [] && source[0] == '`' && EndsBehind(t)
    ensures Rewritten("/*" + t + "*/" + rest, source, sandbox) == "/*" + t + "*/" + Rewritten(rest, source, sandbox)
  {
    var s := "/*" + t + "*/" + rest;
    assert s[0] == '/' && s[1] == '*' && s[..2] == "/*" && s[2..] == t + "*/" + rest;
    OneStep(s, source, sandbox, Code);
    InBlock(t, rest, source, sandbox);
    Glue("/*", t + "*/", Rewritten(rest, source, sandbox));
    Glue("/*", t, "*/");
  }

  predicate NeverEnds(t: string) {
    forall i :: 0 <= i < |t| - 1 ==> !(t[i] == '*' && t[i + 1] == '/')
  }

  lemma {:induction false} OpenBlock(t: string, source: string, sandbox: string)
    requires source != [] && NeverEnds(t)
    ensures From(t, source, sandbox, BlockComment) == t
  {
    if t != [] {
      OneStep(t, source, sandbox, BlockComment);
      assert forall i :: 0 <= i < |t[1..]| ==> t[1..][i] == t[i + 1];
      OpenBlock(t[1..], source, sandbox);
      assert t == t[..1] + t[1..];
    }
  }

  /** So is one that never ends. */
  lemma OpenBlockIsCopied(t: string, source: string, sandbox: string)
    requires source != [] && source[0] == '`' && NeverEnds(t)
    ensures Rewritten("/*" + t, source, sandbox) == "/*" + t
  {
    var s := "/*" + t;
    assert s[0] == '/' && s[1] == '*' && s[..2] == "/*" && s[2..] == t;
    OneStep(s, source, sandbox, Code);
    OpenBlock(t, source, sandbox);
  }

  // ----- code -----

  /** A reference to the source database in code becomes one to the sandbox. */
  lemma ReferenceIsReplaced(rest: string, source: string, sandbox: string)
    requires source != [] && source[0] == '`'
    ensures Rewritten(source + rest, source, sandbox) == sandbox + Rewritten(rest, source, sandbox)
  {
    var s := source + rest;
    assert s[0] == '`' && s[..|source|] == source && s[|source|..] == rest;
    OneStep(s, source, sandbox, Code);
  }

  /** A character that begins no quote, comment or reference is copied. */
  lemma OtherIsCopied(c: char, rest: string, source: string, sandbox: string)
    requires source != [] && source[0] == '`' && !HasPrefix([c] + rest, source)
    requires c != '\'' && c != '"' && c != '#'
    requires !(c == '/' && rest != [] && rest[0] == '*')
    requires !(c == '-' && |rest| > 1 && rest[0] == '-' && (rest[1] == ' ' || rest[1] == '\t' || rest[1] == '\n'))
    ensures Rewritten([c] + rest, source, sandbox) == [c] + Rewritten(rest, source, sandbox)
  {
    var s := [c] + rest;
    assert s[..1] == [c] && s[1..] == rest;
    assert (|s| > 1 ==> s[1] == rest[0]) && (|s| > 2 ==> s[2] == rest[1]);
    OneStep(s, source, sandbox, Code);
  }

  // ----- quoted names -----

  /** How the rest of a backticked name is read: two backticks are one of the name, a single one ends it. */
  function ReadName(s: string): Option<(string, string)>
    decreases |s|
  {
    if s == [] then None
    else if s[0] == '`' && (|s| == 1 || s[1] != '`') then Some(("", s[1..]))
    else
      match ReadName(if s[0] == '`' then s[2..] else s[1..])
      case None => None
      case Some((name, rest)) => Some(([s[0]] + name, rest))
  }

  lemma {:induction false} DoubledReads(name: string, rest: string)
    requires rest == [] || rest[0] != '`'
    ensures ReadName(Doubled(name) + "`" + rest) == Some((name, rest))
  {
    var s := Doubled(name) + "`" + rest;
    if name == [] {
      assert s == "`" + rest && s[1..] == rest;
    } else {
      DoubledReads(name[1..], rest);
      var tail := Doubled(name[1..]) + "`" + rest;
      assert s == (if name[0] == '`' then "``" else [name[0]]) + tail;
      assert (if name[0] == '`' then s[2..] else s[1..]) == tail;
      assert [name[0]] + name[1..] == name;
    }
  }

  /** The prefix of a database is a reference to that database and to no other, whatever its name. */
  lemma QualifiedReads(name: string, rest: string)
    ensures var s := Qualified(name) + rest;
      s[0] == '`' && ReadName(s[1..]) == Some((name, "." + rest))
  {
    var s := Qualified(name) + rest;
    DoubledReads(name, "." + rest);
    assert s[1..] == Doubled(name) + "`" + ("." + rest);
  }
}
