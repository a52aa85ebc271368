/** How query text is spelled: keywords up to case, blanks around them, words inside. The
    classification of queries is proved to go by exactly this. */
module Spelling {
  import opened SqlText

  /** Space, tab, newline, vertical tab, form feed, carriage return. */
  predicate BlankChar(c: char) {
    c in {' ', '\t', '\n', '\U{000B}', '\U{000C}', '\r'}
  }

  predicate Blanks(s: string) {
    forall i :: 0 <= i < |s| ==> BlankChar(s[i])
  }

  /** An upper-case letter and its lower-case form. */
  predicate CasePair(upper: char, lower: char) {
    'A' <= upper <= 'Z' && lower as int == upper as int + 32
  }

  predicate SameLetter(a: char, b: char) {
    a == b || CasePair(a, b) || CasePair(b, a)
  }

  /** Equal up to case. */
  predicate EqualFold(a: string, b: string) {
    |a| == |b| && forall i :: 0 <= i < |a| ==> SameLetter(a[i], b[i])
  }

  predicate NoLower(s: string) {
    forall i :: 0 <= i < |s| ==> !('a' <= s[i] <= 'z')
  }

  predicate NoUpper(s: string) {
    forall i :: 0 <= i < |s| ==> !('A' <= s[i] <= 'Z')
  }

  lemma UpperIsFold(word: string, keyword: string)
    requires NoLower(keyword)
    ensures ToUpper(word) == keyword <==> EqualFold(word, keyword)
  {
    if EqualFold(word, keyword) {
      assert forall i :: 0 <= i < |word| ==> SameLetter(word[i], keyword[i]);
    }
    if ToUpper(word) == keyword {
      assert forall i :: 0 <= i < |word| ==> ToUpper(word)[i] == keyword[i];
    }
  }

  lemma LowerIsFold(word: string, keyword: string)
    requires NoUpper(keyword)
    ensures ToLower(word) == keyword <==> EqualFold(word, keyword)
  {
    if EqualFold(word, keyword) {
      assert forall i :: 0 <= i < |word| ==> SameLetter(word[i], keyword[i]);
    }
    if ToLower(word) == keyword {
      assert forall i :: 0 <= i < |word| ==> ToLower(word)[i] == keyword[i];
    }
  }

  // ----- trimming -----

  /** A text without a blank at either end. */
  predicate Tight(s: string) {
    s == [] || (!BlankChar(s[0]) && !BlankChar(s[|s| - 1]))
  }

  /** t is q without the blanks around it. */
  ghost predicate TrimsTo(q: string, t: string) {
    Tight(t) && exists pre, post :: Blanks(pre) && Blanks(post) && q == pre + t + post
  }

  lemma {:induction false} LeftBlanks(pre: string, s: string)
    requires Blanks(pre) && (s == [] || !BlankChar(s[0]))
    ensures TrimLeft(pre + s) == s
  {
    if pre == [] {
      assert pre + s == s;
    } else {
      assert (pre + s)[1..] == pre[1..] + s;
      LeftBlanks(pre[1..], s);
    }
  }

  lemma {:induction false} RightBlanks(s: string, post: string)
    requires Blanks(post) && (s == [] || !BlankChar(s[|s| - 1]))
    ensures TrimRight(s + post) == s
    decreases |post|
  {
    if post == [] {
      assert s + post == s;
    } else {
      assert (s + post)[..|s + post| - 1] == s + post[..|post| - 1];
      RightBlanks(s, post[..|post| - 1]);
    }
  }

  lemma {:induction false} OnlyBlanks(s: string)
    requires Blanks(s)
    ensures TrimLeft(s) == []
  {
    if s != [] {
      OnlyBlanks(s[1..]);
    }
  }

  lemma TrimOf(q: string, t: string)
    requires TrimsTo(q, t)
    ensures TrimSpace(q) == t
  {
    var pre, post :| Blanks(pre) && Blanks(post) && q == pre + t + post;
    if t == [] {
      assert q == pre + post;
      OnlyBlanks(q);
    } else {
      assert q == pre + (t + post);
      LeftBlanks(pre, t + post);
      RightBlanks(t, post);
    }
  }

  lemma {:induction false} TrimLeftSplits(s: string) returns (pre: string)
    ensures Blanks(pre) && s == pre + TrimLeft(s) && (TrimLeft(s) == [] || !BlankChar(TrimLeft(s)[0]))
  {
    if s != [] && IsSpace(s[0]) {
      pre := TrimLeftSplits(s[1..]);
      pre := [s[0]] + pre;
    } else {
      pre := [];
    }
  }

  lemma {:induction false} TrimRightSplits(s: string) returns (post: string)
    ensures Blanks(post) && s == TrimRight(s) + post
    ensures TrimRight(s) == [] || !BlankChar(TrimRight(s)[|TrimRight(s)| - 1])
    decreases |s|
  {
    if s != [] && IsSpace(s[|s| - 1]) {
      post := TrimRightSplits(s[..|s| - 1]);
      post := post + [s[|s| - 1]];
    } else {
      post := [];
    }
  }

  lemma TrimSplits(q: string)
    ensures TrimsTo(q, TrimSpace(q))
  {
    var pre := TrimLeftSplits(q);
    var post := TrimRightSplits(TrimLeft(q));
    var t := TrimSpace(q);
    assert q == pre + t + post;
    assert t != [] ==> t[0] == TrimLeft(q)[0];
  }

  // ----- words -----

  /** The query is the keyword, up to case and blanks around it. */
  ghost predicate Spells(q: string, keyword: string) {
    exists t :: TrimsTo(q, t) && EqualFold(t, keyword)
  }

  /** The query's first word is the keyword, up to case. */
  ghost predicate StartsWith(q: string, keyword: string) {
    exists word, tail :: TrimsTo(q, word + tail) && EqualFold(word, keyword) && (tail == [] || BlankChar(tail[0]))
  }

  /** The phrase stands in the query, up to case; a space is added at either end of the query. */
  ghost predicate Mentions(q: string, phrase: string) {
    exists t, pre, word, post :: TrimsTo(q, t) && " " + t + " " == pre + word + post && EqualFold(word, phrase)
  }

  lemma SpellsIff(q: string, keyword: string)
    requires NoLower(keyword)
    ensures Spells(q, keyword) <==> ToUpper(TrimSpace(q)) == keyword
  {
    TrimSplits(q);
    UpperIsFold(TrimSpace(q), keyword);
    forall t | TrimsTo(q, t)
      ensures t == TrimSpace(q)
    {
      TrimOf(q, t);
    }
  }

  lemma {:induction false} FirstWordOf(word: string, tail: string)
    requires (forall i :: 0 <= i < |word| ==> !BlankChar(word[i])) && (tail == [] || BlankChar(tail[0]))
    ensures FirstWord(word + tail) == word
  {
    if word == [] {
      assert word + tail == tail;
    } else {
      assert (word + tail)[1..] == word[1..] + tail;
      FirstWordOf(word[1..], tail);
    }
  }

  lemma {:induction false} FirstWordSplits(s: string) returns (tail: string)
    ensures s == FirstWord(s) + tail && (tail == [] || BlankChar(tail[0]))
    ensures forall i :: 0 <= i < |FirstWord(s)| ==> !BlankChar(FirstWord(s)[i])
  {
    if s == [] || IsSpace(s[0]) {
      tail := s;
    } else {
      tail := FirstWordSplits(s[1..]);
      assert s == [s[0]] + s[1..];
    }
  }

  predicate Letters(s: string) {
    forall i :: 0 <= i < |s| ==> 'A' <= s[i] <= 'Z'
  }

  lemma StartsWithIff(q: string, keyword: string)
    requires Letters(keyword)
    ensures StartsWith(q, keyword) <==> ToUpper(FirstWord(TrimSpace(q))) == keyword
  {
    var t := TrimSpace(q);
    TrimSplits(q);
    var rest := FirstWordSplits(t);
    UpperIsFold(FirstWord(t), keyword);
    if StartsWith(q, keyword) {
      var word, tail :| TrimsTo(q, word + tail) && EqualFold(word, keyword) && (tail == [] || BlankChar(tail[0]));
      TrimOf(q, word + tail);
      LettersNotBlank(word, keyword);
      FirstWordOf(word, tail);
    }
    if EqualFold(FirstWord(t), keyword) {
      assert TrimsTo(q, FirstWord(t) + rest);
    }
  }

  lemma LettersNotBlank(word: string, keyword: string)
    requires Letters(keyword) && EqualFold(word, keyword)
    ensures forall i :: 0 <= i < |word| ==> !BlankChar(word[i])
  {
    assert forall i :: 0 <= i < |word| ==> SameLetter(word[i], keyword[i]);
  }

  lemma {:induction false} ContainsSplits(s: string, part: string) returns (pre: string, post: string)
    requires Contains(s, part)
    ensures s == pre + part + post
  {
    if HasPrefix(s, part) {
      pre, post := [], s[|part|..];
    } else {
      pre, post := ContainsSplits(s[1..], part);
      pre := [s[0]] + pre;
    }
  }

  lemma {:induction false} ContainsMiddle(pre: string, part: string, post: string)
    ensures Contains(pre + part + post, part)
  {
    var s := pre + part + post;
    if pre == [] {
      assert s == part + post;
    } else {
      assert s[1..] == pre[1..] + part + post;
      ContainsMiddle(pre[1..], part, post);
    }
  }

  lemma UpperParts(a: string, b: string, c: string)
    ensures ToUpper(a + b + c) == ToUpper(a) + ToUpper(b) + ToUpper(c)
  {}

  lemma UpperPadded(t: string)
    ensures " " + ToUpper(t) + " " == ToUpper(" " + t + " ")
  {
    UpperParts(" ", t, " ");
    assert ToUpper(" ") == " ";
  }

  lemma MentionsIff(q: string, phrase: string)
    requires NoLower(phrase)
    ensures Mentions(q, phrase) <==> Contains(" " + ToUpper(TrimSpace(q)) + " ", phrase)
  {
    var t := TrimSpace(q);
    TrimSplits(q);
    UpperPadded(t);
    if Mentions(q, phrase) {
      var u, pre, word, post :| TrimsTo(q, u) && " " + u + " " == pre + word + post && EqualFold(word, phrase);
      TrimOf(q, u);
      UpperIsFold(word, phrase);
      UpperParts(pre, word, post);
      ContainsMiddle(ToUpper(pre), phrase, ToUpper(post));
    }
    if Contains(ToUpper(" " + t + " "), phrase) {
      var a, b := ContainsSplits(ToUpper(" " + t + " "), phrase);
      CutUpper(" " + t + " ", a, phrase, b);
      var padded := " " + t + " ";
      var pre, word, post := padded[..|a|], padded[|a|..|a| + |phrase|], padded[|a| + |phrase|..];
      UpperIsFold(word, phrase);
      assert padded == pre + word + post;
      assert TrimsTo(q, t) && " " + t + " " == pre + word + post && EqualFold(word, phrase);
    }
  }

  lemma CutUpper(s: string, a: string, part: string, b: string)
    requires ToUpper(s) == a + part + b
    ensures |a| + |part| <= |s| && ToUpper(s[|a|..|a| + |part|]) == part
  {
    assert |ToUpper(s)| == |s|;
    forall i | 0 <= i < |part|
      ensures Upper(s[|a| + i]) == part[i]
    {
      assert ToUpper(s)[|a| + i] == (a + part + b)[|a| + i];
    }
  }

  // ----- what the classification goes by -----

  ghost predicate StartsLikeDdl(q: string) {
    StartsWith(q, "CREATE") || StartsWith(q, "ALTER") || StartsWith(q, "DROP") || StartsWith(q, "TRUNCATE")
    || StartsWith(q, "RENAME")
  }

  /** A CREATE that replaces nothing, or an ALTER that adds and neither drops, changes nor renames. */
  ghost predicate SpellsSafe(q: string) {
    || (StartsWith(q, "CREATE") && !Mentions(q, " OR REPLACE "))
    || (StartsWith(q, "ALTER") && Mentions(q, " ADD ") && !Mentions(q, " DROP ") && !Mentions(q, " MODIFY ")
        && !Mentions(q, " CHANGE ") && !Mentions(q, " RENAME "))
  }

  /** The transaction keywords. */
  lemma KeywordIff(q: string)
    ensures ClassifyQuery(q) == Blank <==> Blanks(q)
    ensures ClassifyQuery(q) == Begin <==> Spells(q, "BEGIN")
    ensures ClassifyQuery(q) == Commit <==> Spells(q, "COMMIT")
    ensures ClassifyQuery(q) == Rollback <==> Spells(q, "ROLLBACK")
  {
    SpellsIff(q, "BEGIN");
    SpellsIff(q, "COMMIT");
    SpellsIff(q, "ROLLBACK");
    TrimSplits(q);
    if Blanks(q) {
      OnlyBlanks(q);
    }
    if TrimSpace(q) == [] {
      var pre, post :| Blanks(pre) && Blanks(post) && q == pre + [] + post;
    }
    assert |ToUpper(TrimSpace(q))| == |TrimSpace(q)|;
  }

  lemma KeywordIsNoDdl(q: string, keyword: string)
    requires Letters(keyword) && keyword != [] && ToUpper(TrimSpace(q)) == keyword
    ensures ToUpper(FirstWord(TrimSpace(q))) == keyword
  {
    var t := TrimSpace(q);
    UpperIsFold(t, keyword);
    LettersNotBlank(t, keyword);
    FirstWordOf(t, []);
    assert t + [] == t;
  }

  lemma DdlByWord(q: string)
    ensures ClassifyDdl(TrimSpace(q)).Ddl? <==> StartsLikeDdl(q)
  {
    StartsWithIff(q, "CREATE");
    StartsWithIff(q, "ALTER");
    StartsWithIff(q, "DROP");
    StartsWithIff(q, "TRUNCATE");
    StartsWithIff(q, "RENAME");
  }

  lemma CreateIff(q: string)
    requires ToUpper(FirstWord(TrimSpace(q))) == "CREATE"
    ensures ClassifyDdl(TrimSpace(q)) == Ddl(Safe) <==> !Mentions(q, " OR REPLACE ")
  {
    MentionsIff(q, " OR REPLACE ");
  }

  lemma SafeByWord(q: string)
    ensures ClassifyDdl(TrimSpace(q)) == Ddl(Safe) <==> SpellsSafe(q)
  {
    StartsWithIff(q, "CREATE");
    StartsWithIff(q, "ALTER");
    if ToUpper(FirstWord(TrimSpace(q))) == "CREATE" {
      CreateIff(q);
    } else if ToUpper(FirstWord(TrimSpace(q))) == "ALTER" {
      AlterIff(q);
    }
  }

  lemma AlterIff(q: string)
    requires ToUpper(FirstWord(TrimSpace(q))) == "ALTER"
    ensures ClassifyDdl(TrimSpace(q)) == Ddl(Safe)
       <==> Mentions(q, " ADD ") && !Mentions(q, " DROP ") && !Mentions(q, " MODIFY ")
            && !Mentions(q, " CHANGE ") && !Mentions(q, " RENAME ")
  {
    MentionsIff(q, " ADD ");
    MentionsIff(q, " DROP ");
    MentionsIff(q, " MODIFY ");
    MentionsIff(q, " CHANGE ");
    MentionsIff(q, " RENAME ");
  }

  /** The schema statements, and which of them may be applied. */
  lemma DdlIff(q: string)
    ensures ClassifyQuery(q).Ddl? <==> StartsLikeDdl(q)
    ensures ClassifyQuery(q) == Ddl(Safe) <==> SpellsSafe(q)
  {
    var t := TrimSpace(q);
    assert |ToUpper(t)| == |t|;
    DdlByWord(q);
    SafeByWord(q);
    if ToUpper(t) == "BEGIN" || ToUpper(t) == "COMMIT" || ToUpper(t) == "ROLLBACK" {
      KeywordIsNoDdl(q, ToUpper(t));
    }
  }
}
