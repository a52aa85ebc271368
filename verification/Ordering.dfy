/** Lexicographic order on code sequences, the byte order on names that it
    induces, and sorting by a name-valued key. */
module Ordering {

  /** Lexicographic order: the first difference decides, a proper prefix is smaller. */
  predicate LexLess(a: seq<int>, b: seq<int>) {
    b != [] && (a == [] || a[0] < b[0] || (a[0] == b[0] && LexLess(a[1..], b[1..])))
  }

  lemma LexIrreflexive(a: seq<int>)
    ensures !LexLess(a, a)
  {}

  lemma LexTransitive(a: seq<int>, b: seq<int>, c: seq<int>)
    requires LexLess(a, b) && LexLess(b, c)
    ensures LexLess(a, c)
  {}

  lemma {:induction false} LexTotal(a: seq<int>, b: seq<int>)
    ensures LexLess(a, b) || a == b || LexLess(b, a)
  {
    if a != [] && b != [] && a[0] == b[0] {
      LexTotal(a[1..], b[1..]);
      assert a == [a[0]] + a[1..] && b == [b[0]] + b[1..];
    }
  }

  function Codes(s: string): (codes: seq<int>) {
    seq(|s|, i requires 0 <= i < |s| => s[i] as int)
  }

  /** The byte order on names that Go's sort.Strings and strings.Compare use. */
  predicate Less(a: string, b: string) {
    LexLess(Codes(a), Codes(b))
  }

  lemma CodesInjective(a: string, b: string)
    requires Codes(a) == Codes(b)
    ensures a == b
  {
    assert |a| == |Codes(a)| == |b|;
    assert forall i :: 0 <= i < |a| ==> a[i] as int == Codes(a)[i] == b[i] as int;
  }

  /** Less is a strict total order on names. */
  lemma LessIsStrictTotal(a: string, b: string, c: string)
    ensures !Less(a, a)
    ensures Less(a, b) && Less(b, c) ==> Less(a, c)
    ensures Less(a, b) || a == b || Less(b, a)
    ensures !(Less(a, b) && Less(b, a))
  {
    LexIrreflexive(Codes(a));
    if Less(a, b) && Less(b, c) {
      LexTransitive(Codes(a), Codes(b), Codes(c));
    }
    LexTotal(Codes(a), Codes(b));
    if Codes(a) == Codes(b) {
      CodesInjective(a, b);
    }
    if Less(a, b) && Less(b, a) {
      LexTransitive(Codes(a), Codes(b), Codes(a));
    }
  }

  ghost predicate SortedBy<T>(key: T -> string, items: seq<T>) {
    forall i, j :: 0 <= i < j < |items| ==> !Less(key(items[j]), key(items[i]))
  }

  function Insert<T>(key: T -> string, x: T, items: seq<T>): (r: seq<T>)
    requires SortedBy(key, items)
    ensures multiset(r) == multiset{x} + multiset(items)
    ensures SortedBy(key, r)
  {
    if items == [] then [x]
    else if !Less(key(items[0]), key(x)) then
      InsertFirst(key, x, items);
      [x] + items
    else
      var rest := Insert(key, x, items[1..]);
      InsertLater(key, x, items, rest);
      [items[0]] + rest
  }

  lemma InsertFirst<T>(key: T -> string, x: T, items: seq<T>)
    requires SortedBy(key, items) && items != [] && !Less(key(items[0]), key(x))
    ensures SortedBy(key, [x] + items)
  {
    forall j | 0 <= j < |items|
      ensures !Less(key(items[j]), key(x))
    {
      LessIsStrictTotal(key(items[0]), key(items[j]), key(x));
    }
  }

  lemma InsertLater<T>(key: T -> string, x: T, items: seq<T>, rest: seq<T>)
    requires SortedBy(key, items) && items != [] && Less(key(items[0]), key(x))
    requires SortedBy(key, rest) && multiset(rest) == multiset{x} + multiset(items[1..])
    ensures SortedBy(key, [items[0]] + rest)
    ensures multiset([items[0]] + rest) == multiset{x} + multiset(items)
  {
    assert items == [items[0]] + items[1..];
    forall j | 0 <= j < |rest|
      ensures !Less(key(rest[j]), key(items[0]))
    {
      assert rest[j] in multiset(rest);
      LessIsStrictTotal(key(items[0]), key(x), key(x));
      assert rest[j] == x || rest[j] in items[1..];
    }
  }

  /** Any sort by the key: the result is ordered and is a permutation of the input. */
  function SortBy<T>(key: T -> string, items: seq<T>): (r: seq<T>)
    ensures SortedBy(key, r)
    ensures multiset(r) == multiset(items)
  {
    if items == [] then []
    else
      assert items == [items[0]] + items[1..];
      Insert(key, items[0], SortBy(key, items[1..]))
  }

  function Self(name: string): string { name }

  ghost predicate Sorted(names: seq<string>) {
    SortedBy(Self, names)
  }

  function SortNames(names: seq<string>): (r: seq<string>)
    ensures Sorted(r)
    ensures multiset(r) == multiset(names)
    ensures |r| == |names|
    ensures forall n :: n in r <==> n in names
  {
    var r := SortBy(Self, names);
    assert |multiset(r)| == |r| && |multiset(names)| == |names|;
    assert forall n :: n in r <==> n in multiset(r);
    r
  }

  predicate Distinct<T(==)>(items: seq<T>) {
    forall i, j :: 0 <= i < j < |items| ==> items[i] != items[j]
  }

  function Members<T>(items: seq<T>): set<T> {
    set x | x in items
  }

  lemma DistinctCounts<T>(items: seq<T>)
    ensures Distinct(items) <==> forall x :: multiset(items)[x] <= 1
  {
    if items != [] {
      var rest := items[1..];
      assert items == [items[0]] + rest;
      DistinctCounts(rest);
      assert forall x :: multiset(items)[x] == (if x == items[0] then 1 else 0) + multiset(rest)[x];
      assert items[0] in rest <==> items[0] in multiset(rest);
      assert Distinct(items) <==> Distinct(rest) && items[0] !in rest;
    }
  }

  lemma SameMultisetDistinct<T>(a: seq<T>, b: seq<T>)
    requires multiset(a) == multiset(b)
    ensures Distinct(a) <==> Distinct(b)
  {
    DistinctCounts(a);
    DistinctCounts(b);
  }

  lemma DistinctSize<T>(items: seq<T>)
    ensures |set x | x in items| <= |items|
    ensures Distinct(items) <==> |set x | x in items| == |items|
  {
    if items != [] {
      var rest := items[1..];
      assert items == [items[0]] + rest;
      DistinctSize(rest);
      var tail := set x | x in rest;
      assert (set x | x in items) == {items[0]} + tail;
      if items[0] in rest {
        assert {items[0]} + tail == tail;
      }
    }
  }

  lemma SortedHeadLeast(names: seq<string>, x: string)
    requires Sorted(names) && x in names
    ensures !Less(x, names[0])
  {
    var i :| 0 <= i < |names| && names[i] == x;
    LessIsStrictTotal(x, x, x);
  }

  /** A set has only one ordered listing. */
  lemma {:induction false} SortedListingUnique(a: seq<string>, b: seq<string>)
    requires Sorted(a) && Distinct(a) && Sorted(b) && Distinct(b)
    requires forall x :: x in a <==> x in b
    ensures a == b
  {
    assert forall i :: 0 <= i < |a| ==> a[i] in b;
    assert forall i :: 0 <= i < |b| ==> b[i] in a;
    if a != [] && b != [] {
      SortedHeadLeast(a, b[0]);
      SortedHeadLeast(b, a[0]);
      LessIsStrictTotal(a[0], b[0], b[0]);
      assert a == [a[0]] + a[1..] && b == [b[0]] + b[1..];
      forall x
        ensures x in a[1..] <==> x in b[1..]
      {
        assert x in a <==> x == a[0] || x in a[1..];
        assert x in b <==> x == b[0] || x in b[1..];
      }
      SortedListingUnique(a[1..], b[1..]);
    }
  }

  lemma {:induction false} ListingExists(names: set<string>) returns (r: seq<string>)
    ensures Sorted(r) && Distinct(r) && forall x :: x in r <==> x in names
  {
    if names == {} {
      r := [];
    } else {
      var x :| x in names;
      var rest := ListingExists(names - {x});
      r := SortNames([x] + rest);
      SameMultisetDistinct([x] + rest, r);
    }
  }

  /** The one ordered listing of a set of names. */
  ghost function SortedListing(names: set<string>): (r: seq<string>)
    ensures Sorted(r) && Distinct(r) && forall x :: x in r <==> x in names
  {
    assert exists r :: Sorted(r) && Distinct(r) && forall x :: x in r <==> x in names by {
      var r := ListingExists(names);
    }
    var r :| Sorted(r) && Distinct(r) && forall x :: x in r <==> x in names;
    r
  }

  /** Collects a set in any order, as a range over a Go map does, and sorts it. */
  method SortedNames(names: set<string>) returns (r: seq<string>)
    ensures r == SortedListing(names)
  {
    r := [];
    var rest := names;
    while rest != {}
      invariant rest <= names && Distinct(r)
      invariant forall n :: n in r <==> n in names && n !in rest
    {
      var n :| n in rest;
      r := r + [n];
      rest := rest - {n};
    }
    SameMultisetDistinct(r, SortNames(r));
    r := SortNames(r);
    SortedListingUnique(r, SortedListing(names));
  }

  lemma MoveHead<T>(a: seq<T>, b: seq<T>)
    requires b != []
    ensures a + [b[0]] + b[1..] == a + b
  {}

  lemma TakeOneMore<T>(s: seq<T>, k: nat)
    requires k < |s|
    ensures s[..k + 1] == s[..k] + [s[k]] && s[k..] == [s[k]] + s[k + 1..] && s[k..][1..] == s[k + 1..]
  {}

  lemma SplitLast<T>(s: seq<T>)
    requires s != []
    ensures s == s[..|s| - 1] + [s[|s| - 1]]
  {}

  lemma AppendAssociative<T>(a: seq<T>, b: seq<T>, c: seq<T>)
    ensures a + (b + c) == a + b + c
  {}

  lemma PrefixOfAppend<T>(a: seq<T>, b: seq<T>, k: nat)
    requires k <= |a|
    ensures (a + b)[..k] == a[..k] && (k > 0 ==> (a + b)[k - 1] == a[k - 1])
  {}

  lemma SliceAppend<T>(s: seq<T>, i: nat, j: nat, k: nat)
    requires i <= j <= k <= |s|
    ensures s[i..k] == s[i..j] + s[j..k]
  {}

  lemma SliceOfSlice<T>(s: seq<T>, i: nat, j: nat, k: nat)
    requires i + j <= |s| && k <= j
    ensures s[i..i + j][..k] == s[i..i + k]
    ensures k > 0 ==> s[i..i + j][k - 1] == s[i + k - 1]
  {}

  lemma WholeSlice<T>(s: seq<T>)
    ensures s[..|s|] == s
  {}
}
