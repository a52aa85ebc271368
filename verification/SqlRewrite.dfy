/** Rewriting `source`. to `sandbox`. in a schema statement, outside strings and comments. */
module SqlRewrite {
  import opened SqlText

  datatype Mode = Code | Single | Double | LineComment | BlockComment

  /** A statement in pieces: text that is kept, and references to the source database. */
  datatype Piece = Text(text: string) | Reference

  predicate StartsDashComment(s: string) {
    |s| > 2 && s[0] == '-' && s[1] == '-' && (s[2] == ' ' || s[2] == '\t' || s[2] == '\n')
  }

  predicate StartsBlockComment(s: string) {
    |s| > 1 && s[0] == '/' && s[1] == '*'
  }

  predicate EndsBlockComment(s: string) {
    |s| > 1 && s[0] == '*' && s[1] == '/'
  }

  /** What the scanner reads next: so many bytes, the mode behind them, a reference or not. */
  datatype Scanned = Scanned(length: nat, mode: Mode, reference: bool)

  function Scan(s: string, qualified: string, mode: Mode): (r: Scanned)
    requires s != [] && qualified != []
    ensures 1 <= r.length <= |s|
      && (r.reference ==> mode == Code && r.mode == Code && HasPrefix(s, qualified) && r.length == |qualified|)
    ensures !r.reference ==> r.length <= 2
  {
    match mode
    case LineComment => Scanned(1, if s[0] == '\n' then Code else LineComment, false)
    case BlockComment => if EndsBlockComment(s) then Scanned(2, Code, false) else Scanned(1, BlockComment, false)
    case Single => Scanned(1, if s[0] == '\'' then Code else Single, false)
    case Double => Scanned(1, if s[0] == '"' then Code else Double, false)
    case Code =>
      if s[0] == '#' then Scanned(1, LineComment, false)
      else if StartsDashComment(s) then Scanned(2, LineComment, false)
      else if StartsBlockComment(s) then Scanned(2, BlockComment, false)
      else if HasPrefix(s, qualified) then Scanned(|qualified|, Code, true)
      else Scanned(1, if s[0] == '\'' then Single else if s[0] == '"' then Double else Code, false)
  }

  function Lex(s: string, qualified: string, mode: Mode): seq<Piece>
    requires qualified != []
    decreases |s|
  {
    if s == [] then []
    else
      var r := Scan(s, qualified, mode);
      [if r.reference then Reference else Text(s[..r.length])] + Lex(s[r.length..], qualified, r.mode)
  }

  function PieceText(piece: Piece, qualified: string): string {
    if piece.Reference? then qualified else piece.text
  }

  function Render(pieces: seq<Piece>, qualified: string): string {
    if pieces == [] then [] else PieceText(pieces[0], qualified) + Render(pieces[1..], qualified)
  }

  /** The statement with every reference in code replaced, and nothing else. */
  function Rewritten(s: string, source: string, sandbox: string): string
    requires source != []
  {
    Render(Lex(s, source, Code), sandbox)
  }

  lemma LexHead(s: string, qualified: string, mode: Mode, other: string)
    requires s != [] && qualified != []
    ensures var r := Scan(s, qualified, mode);
      Render(Lex(s, qualified, mode), other)
      == (if r.reference then other else s[..r.length]) + Render(Lex(s[r.length..], qualified, r.mode), other)
  {
    var r := Scan(s, qualified, mode);
    var head := [if r.reference then Reference else Text(s[..r.length])];
    assert (head + Lex(s[r.length..], qualified, r.mode))[1..] == Lex(s[r.length..], qualified, r.mode);
  }

  /** The pieces are the statement: rendered with the source's own prefix they give it back. */
  lemma {:induction false} PiecesAreTheStatement(s: string, qualified: string, mode: Mode)
    requires qualified != []
    ensures Render(Lex(s, qualified, mode), qualified) == s
    decreases |s|
  {
    if s != [] {
      var r := Scan(s, qualified, mode);
      LexHead(s, qualified, mode, qualified);
      PiecesAreTheStatement(s[r.length..], qualified, r.mode);
      TakeAndDrop(s, r.length);
      assert r.reference ==> s[..r.length] == qualified;
    }
  }

  lemma TakeAndDrop(s: string, n: nat)
    requires n <= |s|
    ensures s[..n] + s[n..] == s
  {}

  /** rewriteQualifiedDatabaseReference. */
  method RewriteQualifiedDatabaseReference(statement: string, source: string, sandbox: string) returns (out: string)
    requires source != []
    ensures out == Rewritten(statement, source, sandbox)
  {
    out := RewriteBytes(statement, source, sandbox, (rest, mode) => Render(Lex(rest, source, mode), sandbox));
  }

  /** What is to be written for the rest of a statement, from a mode on. */
  ghost predicate ToCome(todo: (string, Mode) -> string, source: string, sandbox: string)
    requires source != []
  {
    forall rest, mode {:trigger Lex(rest, source, mode)} :: todo(rest, mode) == Render(Lex(rest, source, mode), sandbox)
  }

  method RewriteBytes(statement: string, source: string, sandbox: string, ghost todo: (string, Mode) -> string)
    returns (out: string)
    requires source != [] && ToCome(todo, source, sandbox)
    ensures out == todo(statement, Code)
  {
    out := [];
    var flags := Flags(false, false, false, false);
    var i := 0;
    assert statement[0..] == statement && [] + todo(statement, Code) == todo(statement, Code);
    while i < |statement|
      invariant 0 <= i <= |statement| && OneMode(flags)
      invariant out + todo(statement[i..], ModeOf(flags)) == todo(statement, Code)
    {
      var n;
      out, n, flags := ScanNext(statement[i..], source, sandbox, out, flags, todo);
      FromThere(statement, i, n);
      i := i + n;
    }
    NothingToCome(todo, source, sandbox, ModeOf(flags));
    assert statement[i..] == [] && out + [] == out;
  }

  lemma FromThere(s: string, i: nat, n: nat)
    requires i + n <= |s|
    ensures s[i..][n..] == s[i + n..]
  {}

  lemma NothingToCome(todo: (string, Mode) -> string, source: string, sandbox: string, mode: Mode)
    requires source != [] && ToCome(todo, source, sandbox)
    ensures todo([], mode) == []
  {
    assert Lex([], source, mode) == [];
  }

  /** The body of the loop, with what is still to come. */
  method ScanNext(rest: string, source: string, sandbox: string, before: string, flags: Flags,
                  ghost todo: (string, Mode) -> string)
    returns (out: string, n: nat, flags': Flags)
    requires rest != [] && source != [] && OneMode(flags) && ToCome(todo, source, sandbox)
    ensures 1 <= n <= |rest| && OneMode(flags')
    ensures out + todo(rest[n..], ModeOf(flags')) == before + todo(rest, ModeOf(flags))
  {
    ghost var r := Scan(rest, source, ModeOf(flags));
    LexHead(rest, source, ModeOf(flags), sandbox);
    Join(before, if r.reference then sandbox else rest[..r.length],
      Render(Lex(rest[r.length..], source, r.mode), sandbox));
    out, n, flags' := ScanOne(rest, source, sandbox, before, flags);
  }

  lemma Join(a: string, b: string, c: string)
    ensures a + (b + c) == a + b + c
  {}

  /** The four mode flags of the scanner; at most one is set. */
  datatype Flags = Flags(inSingle: bool, inDouble: bool, inLineComment: bool, inBlockComment: bool)

  predicate OneMode(f: Flags) {
    && !(f.inSingle && (f.inDouble || f.inLineComment || f.inBlockComment))
    && !(f.inDouble && (f.inLineComment || f.inBlockComment)) && !(f.inLineComment && f.inBlockComment)
  }

  function ModeOf(f: Flags): Mode {
    if f.inLineComment then LineComment else if f.inBlockComment then BlockComment
    else if f.inSingle then Single else if f.inDouble then Double else Code
  }

  /** The branches of the byte loop, on the rest of the statement. */
  method ScanOne(rest: string, source: string, sandbox: string, before: string, flags0: Flags)
    returns (out: string, n: nat, flags: Flags)
    requires rest != [] && source != [] && OneMode(flags0)
    ensures var r := Scan(rest, source, ModeOf(flags0));
      && out == before + (if r.reference then sandbox else rest[..r.length]) && n == r.length
      && OneMode(flags) && ModeOf(flags) == r.mode
  {
    out, n, flags := before, 1, flags0;
    assert rest[..1] == [rest[0]];
    if flags.inLineComment {
      out := out + [rest[0]];
      if rest[0] == '\n' {
        flags := flags.(inLineComment := false);
      }
      return;
    }
    if flags.inBlockComment {
      if rest[0] == '*' && 1 < |rest| && rest[1] == '/' {
        assert rest[..2] == "*/";
        out := out + "*/";
        n := 2;
        flags := flags.(inBlockComment := false);
      } else {
        out := out + [rest[0]];
      }
      return;
    }
    if !flags.inSingle && !flags.inDouble {
      if rest[0] == '#' {
        out := out + [rest[0]];
        flags := flags.(inLineComment := true);
        return;
      }
      if rest[0] == '-' && 2 < |rest| && rest[1] == '-' && (rest[2] == ' ' || rest[2] == '\t' || rest[2] == '\n') {
        assert rest[..2] == "--";
        out := out + "--";
        n := 2;
        flags := flags.(inLineComment := true);
        return;
      }
      if rest[0] == '/' && 1 < |rest| && rest[1] == '*' {
        assert rest[..2] == "/*";
        out := out + "/*";
        n := 2;
        flags := flags.(inBlockComment := true);
        return;
      }
      if HasPrefix(rest, source) {
        out := out + sandbox;
        n := |source|;
        return;
      }
    }
    if rest[0] == '\'' && !flags.inDouble {
      flags := flags.(inSingle := !flags.inSingle);
    } else if rest[0] == '"' && !flags.inSingle {
      flags := flags.(inDouble := !flags.inDouble);
    }
    out := out + [rest[0]];
  }

  // ----- rewriting back -----

  function Doubled(name: string): string {
    if name == [] then [] else (if name[0] == '`' then "``" else [name[0]]) + Doubled(name[1..])
  }

  /** quoteIdentifier(name) + "." */
  function Qualified(name: string): (q: string)
    ensures |q| >= 3 && q[0] == '`'
  {
    "`" + Doubled(name) + "`."
  }

  lemma {:induction false} PlainDoubled(name: string)
    requires Plain(name)
    ensures Doubled(name) == name
  {
    if name != [] {
      PlainDoubled(name[1..]);
      assert name == [name[0]] + name[1..];
    }
  }

  /** The rewritten statement starts as the statement does. */
  lemma {:induction false} StartsAlike(s: string, source: string, sandbox: string, mode: Mode)
    requires source != [] && sandbox != [] && source[0] == sandbox[0] == '`'
    ensures var out := Render(Lex(s, source, mode), sandbox);
      && (s == [] <==> out == []) && (s != [] ==> s[0] == out[0])
      && (s != [] && s[0] != '`' ==> (|s| > 1 <==> |out| > 1) && (|s| > 1 ==> s[1] == out[1]))
    decreases |s|
  {
    if s != [] {
      var r := Scan(s, source, mode);
      LexHead(s, source, mode, sandbox);
      if !r.reference {
        StartsAlike(s[r.length..], source, sandbox, r.mode);
      }
    }
  }

  predicate PlainChar(c: char) {
    'a' <= c <= 'z' || 'A' <= c <= 'Z' || '0' <= c <= '9' || c == '_'
  }

  /** A name of letters, digits and underscores. */
  predicate Plain(name: string) {
    forall i :: 0 <= i < |name| ==> PlainChar(name[i])
  }

  lemma PrefixTail(x: string, p: string)
    requires p != []
    ensures HasPrefix(x, p) <==> x != [] && x[0] == p[0] && HasPrefix(x[1..], p[1..])
  {
    if x != [] && x[0] == p[0] && HasPrefix(x[1..], p[1..]) {
      assert x[..|p|] == [x[0]] + x[1..][..|p| - 1];
      assert p == [p[0]] + p[1..];
    }
    if HasPrefix(x, p) {
      assert x[..|p|][0] == x[0] && x[1..][..|p| - 1] == x[..|p|][1..];
    }
  }

  /** A sandbox prefix does not begin with the end of one. */
  lemma NotInside(out: string, name: string, w: string)
    requires name != [] && Plain(name) && Plain(w) && HasPrefix(out, "`" + name + "`.")
    ensures !HasPrefix(out, w + "`.")
  {
    PrefixTail(out, "`" + name + "`.");
    PrefixTail(out, w + "`.");
    assert ("`" + name + "`.")[1..] == name + "`.";
    PrefixTail(out[1..], name + "`.");
    if w == [] {
      PrefixTail(out[1..], ".");
      assert (w + "`.")[1..] == ".";
      assert PlainChar(name[0]);
    } else {
      assert PlainChar(w[0]);
    }
  }

  lemma ReadsOne(s: string, source: string, mode: Mode)
    requires s != [] && source != [] && (s[0] == '`' || PlainChar(s[0]))
    ensures Scan(s, source, mode).reference || Scan(s, source, mode).length == 1
  {}

  /** The end of a sandbox prefix in the rewritten statement stood in the statement. */
  lemma {:induction false} EndStoodBefore(s: string, source: string, name: string, mode: Mode, w: string)
    requires source != [] && source[0] == '`' && name != [] && Plain(name) && Plain(w)
    requires HasPrefix(Render(Lex(s, source, mode), "`" + name + "`."), w + "`.")
    ensures HasPrefix(s, w + "`.")
    decreases |s|
  {
    var sandbox, p := "`" + name + "`.", w + "`.";
    var out := Render(Lex(s, source, mode), sandbox);
    StartsAlike(s, source, sandbox, mode);
    PrefixTail(out, p);
    assert w != [] ==> PlainChar(w[0]);
    ReadsOne(s, source, mode);
    var r := Scan(s, source, mode);
    LexHead(s, source, mode, sandbox);
    if r.reference {
      assert HasPrefix(out, sandbox);
      NotInside(out, name, w);
    } else {
      var rest := s[1..];
      var out' := Render(Lex(rest, source, r.mode), sandbox);
      assert out == [s[0]] + out' && out[1..] == out';
      PrefixTail(s, p);
      if w == [] {
        assert p[1..] == ".";
        StartsAlike(rest, source, sandbox, r.mode);
        PrefixTail(out', ".");
        PrefixTail(rest, ".");
      } else {
        assert p[1..] == w[1..] + "`.";
        EndStoodBefore(rest, source, name, r.mode, w[1..]);
      }
    }
  }

  /** The sandbox prefix does not already stand where the scanner looks for references. */
  predicate Absent(s: string, source: string, sandbox: string, mode: Mode)
    requires source != []
    decreases |s|
  {
    s == [] ||
    var r := Scan(s, source, mode);
    (mode == Code && !r.reference ==> !HasPrefix(s, sandbox)) && Absent(s[r.length..], source, sandbox, r.mode)
  }

  /** Statements that start alike are scanned alike, references apart. */
  lemma SameScan(s: string, out: string, source: string, sandbox: string, mode: Mode)
    requires s != [] && out != [] && source != [] && sandbox != [] && s[0] == out[0]
    requires !Scan(s, source, mode).reference && (mode == Code ==> !HasPrefix(out, sandbox))
    requires |s| > 1 <==> |out| > 1
    requires |s| > 1 ==> s[1] == out[1]
    requires |s| > 1 && s[1] != '`' ==> (|s| > 2 <==> |out| > 2) && (|s| > 2 ==> s[2] == out[2])
    ensures Scan(out, sandbox, mode) == Scan(s, source, mode)
  {}

  /** The sandbox prefix is not found in the rewritten statement where it was not found before. */
  lemma StillAbsent(s: string, source: string, name: string, mode: Mode)
    requires s != [] && source != [] && source[0] == '`' && name != [] && Plain(name)
    requires !Scan(s, source, mode).reference && !HasPrefix(s, "`" + name + "`.")
    ensures !HasPrefix(Render(Lex(s, source, mode), "`" + name + "`."), "`" + name + "`.")
  {
    var sandbox := "`" + name + "`.";
    var out, r := Render(Lex(s, source, mode), sandbox), Scan(s, source, mode);
    StartsAlike(s, source, sandbox, mode);
    PrefixTail(out, sandbox);
    PrefixTail(s, sandbox);
    assert sandbox[1..] == name + "`.";
    if s[0] == '`' {
      ReadsOne(s, source, mode);
      LexHead(s, source, mode, sandbox);
      var out' := Render(Lex(s[1..], source, r.mode), sandbox);
      assert out == [s[0]] + out' && out[1..] == out';
      if HasPrefix(out', name + "`.") {
        EndStoodBefore(s[1..], source, name, r.mode, name);
      }
    }
  }

  lemma StartsAlikeTwice(s: string, source: string, sandbox: string, mode: Mode)
    requires s != [] && source != [] && sandbox != [] && source[0] == sandbox[0] == '`'
      && !Scan(s, source, mode).reference
    ensures var out := Render(Lex(s, source, mode), sandbox);
      && out != [] && s[0] == out[0] && (|s| > 1 <==> |out| > 1) && (|s| > 1 ==> s[1] == out[1])
      && (|s| > 1 && s[1] != '`' ==> (|s| > 2 <==> |out| > 2) && (|s| > 2 ==> s[2] == out[2]))
  {
    var r := Scan(s, source, mode);
    LexHead(s, source, mode, sandbox);
    StartsAlike(s[r.length..], source, sandbox, r.mode);
  }

  /** The scanner reads the rewritten statement, looking for the sandbox prefix, as it read the
      statement. */
  lemma ScansAlike(s: string, source: string, name: string, mode: Mode)
    requires s != [] && source != [] && source[0] == '`' && name != [] && Plain(name)
    requires mode == Code && !Scan(s, source, mode).reference ==> !HasPrefix(s, "`" + name + "`.")
    ensures var sandbox := "`" + name + "`.";
      var out, r := Render(Lex(s, source, mode), sandbox), Scan(s, source, mode);
      out != [] && Scan(out, sandbox, mode) == r.(length := if r.reference then |sandbox| else r.length)
  {
    var sandbox := "`" + name + "`.";
    var r := Scan(s, source, mode);
    var out := Render(Lex(s, source, mode), sandbox);
    if r.reference {
      LexHead(s, source, mode, sandbox);
      assert HasPrefix(out, sandbox);
    } else {
      StartsAlikeTwice(s, source, sandbox, mode);
      if mode == Code {
        StillAbsent(s, source, name, mode);
      }
      SameScan(s, out, source, sandbox, mode);
    }
  }

  lemma {:induction false} PiecesAgain(s: string, source: string, name: string, mode: Mode)
    requires source != [] && source[0] == '`' && name != [] && Plain(name)
    requires Absent(s, source, "`" + name + "`.", mode)
    ensures var sandbox := "`" + name + "`.";
      Lex(Render(Lex(s, source, mode), sandbox), sandbox, mode) == Lex(s, source, mode)
    decreases |s|
  {
    if s != [] {
      var sandbox := "`" + name + "`.";
      var r := Scan(s, source, mode);
      var out, out' := Render(Lex(s, source, mode), sandbox), Render(Lex(s[r.length..], source, r.mode), sandbox);
      ScansAlike(s, source, name, mode);
      LexHead(s, source, mode, sandbox);
      PiecesAgain(s[r.length..], source, name, r.mode);
      var n := Scan(out, sandbox, mode).length;
      assert out[n..] == out' && (!r.reference ==> out[..n] == s[..n]);
    }
  }

  // ----- and only then -----

  lemma PrefixStarts(s: string, p: string)
    requires HasPrefix(s, p) && |p| > 1
    ensures |s| > 1 && s[0] == p[0] && s[1] == p[1]
  {
    assert s[..|p|][0] == s[0] && s[..|p|][1] == s[1];
  }

  /** A character that is read as text in code. */
  predicate Ordinary(c: char) {
    c == '`' || c == '.' || PlainChar(c)
  }

  lemma TextCopied(s: string, source: string, sandbox: string)
    requires s != [] && source != [] && Ordinary(s[0]) && !HasPrefix(s, source)
    ensures Scan(s, source, Code) == Scanned(1, Code, false)
    ensures Render(Lex(s, source, Code), sandbox) == [s[0]] + Render(Lex(s[1..], source, Code), sandbox)
  {
    LexHead(s, source, Code, sandbox);
    assert s[..1] == [s[0]];
  }

  lemma PrefixBehind(c: char, rest: string, p: string)
    requires p != [] && p[0] == c && HasPrefix(rest, p[1..])
    ensures HasPrefix([c] + rest, p)
  {
    PrefixTail([c] + rest, p);
    assert ([c] + rest)[1..] == rest;
  }

  /** A sandbox prefix that stands in code is copied as it is. */
  lemma {:induction false} CopiedThrough(s: string, source: string, sandbox: string, w: string)
    requires |source| > 1 && source[0] == '`' && source[1] != '.' && sandbox != [] && sandbox[0] == '`'
    requires Plain(w) && HasPrefix(s, w + "`.")
    ensures HasPrefix(Render(Lex(s, source, Code), sandbox), w + "`.")
  {
    var p := w + "`.";
    PrefixTail(s, p);
    PrefixTail(s[1..], p[1..]);
    assert w != [] ==> PlainChar(w[0]);
    if HasPrefix(s, source) {
      PrefixStarts(s, source);
    }
    TextCopied(s, source, sandbox);
    if w == [] {
      DotCopied(s[1..], source, sandbox);
    } else {
      assert p[1..] == w[1..] + "`.";
      CopiedThrough(s[1..], source, sandbox, w[1..]);
    }
    PrefixBehind(s[0], Render(Lex(s[1..], source, Code), sandbox), p);
  }

  lemma DotCopied(s: string, source: string, sandbox: string)
    requires |source| > 1 && source[0] == '`' && HasPrefix(s, ".")
    ensures HasPrefix(Render(Lex(s, source, Code), sandbox), ".")
  {
    PrefixTail(s, ".");
    if HasPrefix(s, source) {
      PrefixStarts(s, source);
    }
    TextCopied(s, source, sandbox);
    PrefixTail(Render(Lex(s, source, Code), sandbox), ".");
  }

  /** The statement that comes back. */
  function Back(s: string, source: string, sandbox: string, mode: Mode): string
    requires source != [] && sandbox != []
  {
    Render(Lex(Render(Lex(s, source, mode), sandbox), sandbox, mode), source)
  }

  /** In code, a sandbox prefix that already stood there comes back as a source prefix. */
  lemma ComesBackAsSource(s: string, source: string, name: string)
    requires |source| > 1 && source[0] == '`' && source[1] != '.' && name != [] && Plain(name)
    requires HasPrefix(s, "`" + name + "`.") && !Scan(s, source, Code).reference
    ensures Back(s, source, "`" + name + "`.", Code) != s
  {
    var sandbox := "`" + name + "`.";
    PrefixTail(s, sandbox);
    assert sandbox[1..] == name + "`.";
    ReadsOne(s, source, Code);
    LexHead(s, source, Code, sandbox);
    CopiedThrough(s[1..], source, sandbox, name);
    var out, rest := Render(Lex(s, source, Code), sandbox), Render(Lex(s[1..], source, Code), sandbox);
    assert s[..1] == [s[0]] && out == [s[0]] + rest && out[1..] == rest;
    PrefixTail(out, sandbox);
    LexHead(out, sandbox, Code, source);
    assert !HasPrefix(s, source);
    assert HasPrefix(Back(s, source, sandbox, Code), source);
  }

  lemma {:induction false} BackMeansAbsent(s: string, source: string, name: string, mode: Mode)
    requires |source| > 1 && source[0] == '`' && source[1] != '.' && name != [] && Plain(name)
    requires Back(s, source, "`" + name + "`.", mode) == s
    ensures Absent(s, source, "`" + name + "`.", mode)
    decreases |s|
  {
    if s != [] {
      var sandbox, r := "`" + name + "`.", Scan(s, source, mode);
      if mode == Code && !r.reference && HasPrefix(s, sandbox) {
        ComesBackAsSource(s, source, name);
      } else {
        BackSplits(s, source, name, mode);
        BackMeansAbsent(s[r.length..], source, name, r.mode);
      }
    }
  }

  lemma HeadAndRest(head: string, rest: string)
    ensures (head + rest)[..|head|] == head && (head + rest)[|head|..] == rest
  {}

  lemma SameHead(head: string, x: string, y: string)
    ensures head + x == head + y ==> x == y
  {
    HeadAndRest(head, x);
    HeadAndRest(head, y);
  }

  lemma BackSplits(s: string, source: string, name: string, mode: Mode)
    requires s != [] && source != [] && source[0] == '`' && name != [] && Plain(name)
    requires mode == Code && !Scan(s, source, mode).reference ==> !HasPrefix(s, "`" + name + "`.")
    ensures var r := Scan(s, source, mode);
      Back(s, source, "`" + name + "`.", mode) == s ==>
        Back(s[r.length..], source, "`" + name + "`.", r.mode) == s[r.length..]
  {
    var sandbox, r := "`" + name + "`.", Scan(s, source, mode);
    var out, rest := Render(Lex(s, source, mode), sandbox), Render(Lex(s[r.length..], source, r.mode), sandbox);
    var head := if r.reference then sandbox else s[..r.length];
    ScansAlike(s, source, name, mode);
    LexHead(s, source, mode, sandbox);
    HeadAndRest(head, rest);
    LexHead(out, sandbox, mode, source);
    TakeAndDrop(s, r.length);
    SameHead(s[..r.length], Render(Lex(rest, sandbox, r.mode), source), s[r.length..]);
  }

  /** Rewriting to a plainly named sandbox database and back restores the statement when the sandbox
      prefix did not already stand in its code; and only then, if the source's name does not begin
      with a dot. */
  lemma RewritingBackRestores(statement: string, source: string, name: string)
    requires name != [] && Plain(name)
    ensures var there := Rewritten(statement, Qualified(source), Qualified(name));
      var back := Rewritten(there, Qualified(name), Qualified(source));
      && (Absent(statement, Qualified(source), Qualified(name), Code) ==> back == statement)
      && (source == [] || source[0] != '.' ==>
            (back == statement <==> Absent(statement, Qualified(source), Qualified(name), Code)))
  {
    PlainDoubled(name);
    if Absent(statement, Qualified(source), Qualified(name), Code) {
      PiecesAgain(statement, Qualified(source), name, Code);
      PiecesAreTheStatement(statement, Qualified(source), Code);
    }
    if (source == [] || source[0] != '.') && Back(statement, Qualified(source), Qualified(name), Code) == statement {
      BackMeansAbsent(statement, Qualified(source), name, Code);
    }
  }

  // ----- no reference is left -----

  /** The scanner finds no reference. */
  predicate NoReference(s: string, qualified: string, mode: Mode)
    requires qualified != []
    decreases |s|
  {
    s == [] ||
    var r := Scan(s, qualified, mode);
    !r.reference && NoReference(s[r.length..], qualified, r.mode)
  }

  lemma PlainPrefixesDiffer(out: string, v: string, w: string)
    requires Plain(v) && Plain(w) && HasPrefix(out, v + "`.") && HasPrefix(out, w + "`.")
    ensures v == w
  {
    PrefixTail(out, v + "`.");
    PrefixTail(out, w + "`.");
    assert (v != [] ==> PlainChar(v[0])) && (w != [] ==> PlainChar(w[0]));
    if v != [] && w != [] {
      assert (v + "`.")[1..] == v[1..] + "`." && (w + "`.")[1..] == w[1..] + "`.";
      PlainPrefixesDiffer(out[1..], v[1..], w[1..]);
      assert v == [v[0]] + v[1..] && w == [w[0]] + w[1..];
    }
  }

  /** One character of the sandbox prefix, read in code. */
  lemma ReadsPast(c: char, rest: string, source: string)
    requires |source| > 1 && Ordinary(c) && NoReference(rest, source, Code)
    requires c != source[0] || rest == [] || rest[0] != source[1]
    ensures NoReference([c] + rest, source, Code)
  {
    var s := [c] + rest;
    assert s[1..] == rest;
    if HasPrefix(s, source) {
      PrefixStarts(s, source);
    }
    assert Scan(s, source, Code) == Scanned(1, Code, false);
  }

  lemma SplitName(w: string, rest: string)
    ensures w == [] ==> w + "`." + rest == ['`'] + (['.'] + rest)
    ensures w != [] ==> w + "`." + rest == [w[0]] + (w[1..] + "`." + rest)
  {}

  /** Behind the first character, the sandbox prefix holds no beginning of a source prefix. */
  lemma {:induction false} PassesName(w: string, rest: string, source: string)
    requires |source| > 1 && source[0] == '`' && PlainChar(source[1]) && Plain(w) && NoReference(rest, source, Code)
    ensures NoReference(w + "`." + rest, source, Code)
  {
    SplitName(w, rest);
    if w == [] {
      ReadsPast('.', rest, source);
      ReadsPast('`', ['.'] + rest, source);
    } else {
      PassesName(w[1..], rest, source);
      assert PlainChar(w[0]);
      ReadsPast(w[0], w[1..] + "`." + rest, source);
    }
  }

  /** No source prefix arises where there was none. */
  lemma NoneArises(s: string, src: string, name: string)
    requires s != [] && src != [] && Plain(src) && name != [] && Plain(name)
      && !Scan(s, "`" + src + "`.", Code).reference
    ensures !HasPrefix(Render(Lex(s, "`" + src + "`.", Code), "`" + name + "`."), "`" + src + "`.")
  {
    var source, sandbox := "`" + src + "`.", "`" + name + "`.";
    var out, r := Render(Lex(s, source, Code), sandbox), Scan(s, source, Code);
    StartsAlike(s, source, sandbox, Code);
    PrefixTail(out, source);
    PrefixTail(s, source);
    assert source[1..] == src + "`.";
    if s[0] == '`' {
      ReadsOne(s, source, Code);
      LexHead(s, source, Code, sandbox);
      var rest := Render(Lex(s[1..], source, r.mode), sandbox);
      assert out == [s[0]] + rest && out[1..] == rest;
      if HasPrefix(rest, src + "`.") {
        EndStoodBefore(s[1..], source, name, r.mode, src);
      }
    }
  }

  /** A sandbox prefix is read without finding a reference. */
  lemma PassesSandbox(src: string, name: string, rest: string)
    requires src != [] && Plain(src) && name != [] && Plain(name) && src != name
      && NoReference(rest, "`" + src + "`.", Code)
    ensures NoReference("`" + name + "`." + rest, "`" + src + "`.", Code)
  {
    var source, tail := "`" + src + "`.", name + "`." + rest;
    var out := "`" + name + "`." + rest;
    assert PlainChar(src[0]) && source[1] == src[0];
    PassesName(name, rest, source);
    assert out == ['`'] + tail && out[1..] == tail && out[..1] == "`";
    if HasPrefix(out, source) {
      PrefixTail(out, source);
      assert source[1..] == src + "`." && tail[..|name + "`."|] == name + "`.";
      PlainPrefixesDiffer(tail, src, name);
    }
    TextCopied(out, source, source);
  }

  /** What is kept as text is read as before. */
  lemma PassesText(s: string, src: string, name: string, mode: Mode)
    requires s != [] && src != [] && Plain(src) && name != [] && Plain(name)
      && !Scan(s, "`" + src + "`.", mode).reference
    ensures var source, sandbox := "`" + src + "`.", "`" + name + "`.";
      var r, out := Scan(s, source, mode), Render(Lex(s, source, mode), sandbox);
      out != [] && Scan(out, source, mode) == r
        && out[r.length..] == Render(Lex(s[r.length..], source, r.mode), sandbox)
  {
    var source, sandbox := "`" + src + "`.", "`" + name + "`.";
    var out := Render(Lex(s, source, mode), sandbox);
    StartsAlikeTwice(s, source, sandbox, mode);
    if mode == Code {
      NoneArises(s, src, name);
    }
    SameScan(s, out, source, source, mode);
    LexHead(s, source, mode, sandbox);
  }

  lemma {:induction false} NoneLeftFrom(s: string, src: string, name: string, mode: Mode)
    requires src != [] && Plain(src) && name != [] && Plain(name) && src != name
    ensures NoReference(Render(Lex(s, "`" + src + "`.", mode), "`" + name + "`."), "`" + src + "`.", mode)
    decreases |s|
  {
    if s != [] {
      var source, sandbox := "`" + src + "`.", "`" + name + "`.";
      var r := Scan(s, source, mode);
      NoneLeftFrom(s[r.length..], src, name, r.mode);
      if r.reference {
        LexHead(s, source, mode, sandbox);
        PassesSandbox(src, name, Render(Lex(s[r.length..], source, r.mode), sandbox));
      } else {
        PassesText(s, src, name, mode);
      }
    }
  }

  /** The rewritten statement refers to the source database nowhere in its code, for any two
      different plain names. */
  lemma NoneLeft(statement: string, source: string, name: string)
    requires source != [] && Plain(source) && name != [] && Plain(name) && source != name
    ensures NoReference(Rewritten(statement, Qualified(source), Qualified(name)), Qualified(source), Code)
  {
    PlainDoubled(source);
    PlainDoubled(name);
    NoneLeftFrom(statement, source, name, Code);
  }
}
