/** Strings under code-point order, sorted sequences of them, and slash-joined paths. */
module Text {

  newtype byte = x: int | 0 <= x < 256

  type Bytes = seq<byte>

  datatype Option<+T> = None | Some(value: T)

  datatype Result<+T> = Ok(value: T) | Err

  // ---------------------------------------------------------------- order

  predicate Less(a: string, b: string) {
    if b == [] then false
    else if a == [] then true
    else a[0] < b[0] || (a[0] == b[0] && Less(a[1..], b[1..]))
  }

  lemma {:induction false} LessIrreflexive(a: string)
    ensures !Less(a, a)
  {
    if a != [] { LessIrreflexive(a[1..]); }
  }

  lemma {:induction false} LessTransitive(a: string, b: string, c: string)
    requires Less(a, b) && Less(b, c)
    ensures Less(a, c)
  {
    if a != [] && a[0] == b[0] && b[0] == c[0] {
      LessTransitive(a[1..], b[1..], c[1..]);
    }
  }

  lemma {:induction false} LessTotal(a: string, b: string)
    ensures a == b || Less(a, b) || Less(b, a)
  {
    if a != [] && b != [] && a[0] == b[0] {
      LessTotal(a[1..], b[1..]);
      assert a == [a[0]] + a[1..] && b == [b[0]] + b[1..];
    }
  }

  lemma LessAsymmetric(a: string, b: string)
    requires Less(a, b)
    ensures !Less(b, a) && a != b
  {
    LessIrreflexive(a);
    if Less(b, a) { LessTransitive(a, b, a); }
  }

  /** Putting the same text in front of two strings keeps their order. */
  lemma {:induction false} LessCommonPrefix(p: string, a: string, b: string)
    ensures Less(p + a, p + b) == Less(a, b)
  {
    if p == [] {
      assert p + a == a && p + b == b;
    } else {
      LessCommonPrefix(p[1..], a, b);
      assert (p + a)[1..] == p[1..] + a && (p + b)[1..] == p[1..] + b;
    }
  }

  /** A proper prefix sorts first. */
  lemma LessExtension(a: string, b: string)
    requires b != []
    ensures Less(a, a + b)
  {
    LessCommonPrefix(a, [], b);
    assert a + [] == a;
  }

  ghost predicate Ascending(s: seq<string>) {
    forall i, j :: 0 <= i < j < |s| ==> Less(s[i], s[j])
  }

  ghost function Elements<T>(s: seq<T>): set<T> {
    set x | x in s
  }

  lemma AscendingTail(s: seq<string>)
    requires Ascending(s) && s != []
    ensures Ascending(s[1..])
    ensures forall x :: x in s[1..] ==> Less(s[0], x)
    ensures s[0] !in s[1..]
    ensures Elements(s[1..]) == Elements(s) - {s[0]}
  {
    LessIrreflexive(s[0]);
    assert s == [s[0]] + s[1..];
  }

  lemma AscendingCons(x: string, s: seq<string>)
    requires Ascending(s)
    requires forall y :: y in s ==> Less(x, y)
    ensures Ascending([x] + s)
  {
  }

  /** An ascending sequence is determined by its elements. */
  lemma {:induction false} AscendingUnique(s: seq<string>, t: seq<string>)
    requires Ascending(s) && Ascending(t) && Elements(s) == Elements(t)
    ensures s == t
    decreases |s|
  {
    if s == [] {
      assert forall i :: 0 <= i < |t| ==> t[i] in Elements(t);
    } else {
      assert s[0] in Elements(t);
      assert t != [];
      AscendingTail(s);
      AscendingTail(t);
      assert s[0] in t && t[0] in s by { assert t[0] in Elements(s); }
      if s[0] != t[0] {
        LessAsymmetric(s[0], t[0]);
        assert false;
      }
      AscendingUnique(s[1..], t[1..]);
      assert s == [s[0]] + s[1..] && t == [t[0]] + t[1..];
    }
  }

  lemma {:induction false} AscendingSize(s: seq<string>)
    requires Ascending(s)
    ensures |Elements(s)| == |s|
    decreases |s|
  {
    if s != [] {
      AscendingTail(s);
      AscendingSize(s[1..]);
    }
  }

  /** Inserts into an ascending sequence, once. */
  function Insert(x: string, s: seq<string>): seq<string> {
    if s == [] then [x]
    else if x == s[0] then s
    else if Less(x, s[0]) then [x] + s
    else [s[0]] + Insert(x, s[1..])
  }

  lemma {:induction false} InsertAscends(x: string, s: seq<string>)
    requires Ascending(s)
    ensures Ascending(Insert(x, s))
    ensures Elements(Insert(x, s)) == Elements(s) + {x}
    decreases |s|
  {
    if s != [] {
      AscendingTail(s);
      if x != s[0] {
        if Less(x, s[0]) {
          forall y | y in s ensures Less(x, y) {
            if y != s[0] {
              assert y in s[1..];
              LessTransitive(x, s[0], y);
            }
          }
          AscendingCons(x, s);
        } else {
          LessTotal(x, s[0]);
          InsertAscends(x, s[1..]);
          var rest := Insert(x, s[1..]);
          assert forall y :: y in rest <==> y in Elements(rest);
          AscendingCons(s[0], rest);
          assert Elements([s[0]] + rest) == {s[0]} + Elements(rest);
        }
      }
    }
  }

  /** Python's `sorted(set(s))`. */
  function SortedSet(s: seq<string>): seq<string> {
    if s == [] then [] else Insert(s[0], SortedSet(s[1..]))
  }

  lemma {:induction false} SortedSetCorrect(s: seq<string>)
    ensures Ascending(SortedSet(s))
    ensures Elements(SortedSet(s)) == Elements(s)
    decreases |s|
  {
    if s != [] {
      SortedSetCorrect(s[1..]);
      InsertAscends(s[0], SortedSet(s[1..]));
      assert Elements(s) == {s[0]} + Elements(s[1..]);
    }
  }

  lemma {:induction false} SortedSetShorter(s: seq<string>)
    ensures |SortedSet(s)| <= |s|
    decreases |s|
  {
    if s != [] {
      SortedSetShorter(s[1..]);
      InsertLonger(s[0], SortedSet(s[1..]));
    }
  }

  lemma {:induction false} InsertLonger(x: string, s: seq<string>)
    ensures |Insert(x, s)| <= |s| + 1
    decreases |s|
  {
    if s != [] { InsertLonger(x, s[1..]); }
  }

  /** The test `s == sorted(set(s))` of the validators, and what it means. */
  lemma IsSortedSet(s: seq<string>)
    ensures s == SortedSet(s) <==> Ascending(s)
  {
    SortedSetCorrect(s);
    if Ascending(s) { AscendingUnique(s, SortedSet(s)); }
  }

  ghost predicate NoDuplicates<T>(s: seq<T>) {
    forall i, j :: 0 <= i < j < |s| ==> s[i] != s[j]
  }

  function InsertAny(x: string, s: seq<string>): seq<string> {
    if s == [] then [x]
    else if Less(s[0], x) then [s[0]] + InsertAny(x, s[1..])
    else [x] + s
  }

  /** Python's `sorted(s)`, duplicates kept. */
  function Sort(s: seq<string>): seq<string> {
    if s == [] then [] else InsertAny(s[0], Sort(s[1..]))
  }

  lemma {:induction false} InsertAnyNew(x: string, s: seq<string>)
    requires x !in s
    ensures InsertAny(x, s) == Insert(x, s)
    decreases |s|
  {
    if s != [] {
      LessTotal(x, s[0]);
      if Less(x, s[0]) { LessAsymmetric(x, s[0]); } else { InsertAnyNew(x, s[1..]); }
    }
  }

  /** Without duplicates, sorting gives the ascending sequence of the same elements. */
  lemma {:induction false} SortDistinct(s: seq<string>)
    requires NoDuplicates(s)
    ensures Ascending(Sort(s)) && Elements(Sort(s)) == Elements(s)
    ensures Sort(s) == SortedSet(s)
    decreases |s|
  {
    if s != [] {
      var rest := s[1..];
      SortDistinct(rest);
      assert s[0] !in rest;
      assert s[0] !in Elements(Sort(rest));
      InsertAnyNew(s[0], Sort(rest));
      InsertAscends(s[0], Sort(rest));
      assert Elements(s) == {s[0]} + Elements(rest);
    }
  }

  /** Sorting keeps every element as often as it was there. */
  lemma {:induction false} SortKeepsAll(s: seq<string>)
    ensures multiset(Sort(s)) == multiset(s)
    decreases |s|
  {
    if s != [] {
      SortKeepsAll(s[1..]);
      InsertKeepsAll(s[0], Sort(s[1..]));
      assert s == [s[0]] + s[1..];
    }
  }

  lemma {:induction false} InsertKeepsAll(x: string, s: seq<string>)
    ensures multiset(InsertAny(x, s)) == multiset(s) + multiset{x}
    decreases |s|
  {
    if s != [] {
      InsertKeepsAll(x, s[1..]);
      assert s == [s[0]] + s[1..];
    }
  }

  lemma {:induction false} AscendingOnce(s: seq<string>, x: string)
    requires Ascending(s)
    ensures multiset(s)[x] <= 1
    decreases |s|
  {
    if s != [] {
      AscendingTail(s);
      AscendingOnce(s[1..], x);
      assert s == [s[0]] + s[1..];
      if x == s[0] { assert x !in s[1..]; }
    }
  }

  lemma TwiceCounts<T>(s: seq<T>, i: nat, j: nat)
    requires i < j < |s| && s[i] == s[j]
    ensures multiset(s)[s[i]] >= 2
  {
    assert s == s[..i + 1] + s[i + 1..];
    assert s[..i + 1][i] == s[i] && s[i + 1..][j - i - 1] == s[i];
    assert multiset(s) == multiset(s[..i + 1]) + multiset(s[i + 1..]);
  }

  /** Sorting gives a strictly sorted sequence exactly when there are no duplicates. */
  lemma SortAscends(s: seq<string>)
    ensures Ascending(Sort(s)) <==> NoDuplicates(s)
  {
    hide Sort, Ascending;
    if NoDuplicates(s) {
      SortDistinct(s);
    } else {
      var i, j :| 0 <= i < j < |s| && s[i] == s[j];
      TwiceCounts(s, i, j);
      SortKeepsAll(s);
      if Ascending(Sort(s)) { AscendingOnce(Sort(s), s[i]); }
    }
  }

  lemma {:induction false} DistinctSize<T>(s: seq<T>)
    requires NoDuplicates(s)
    ensures |Elements(s)| == |s|
    decreases |s|
  {
    if s != [] {
      DistinctSize(s[1..]);
      assert s == [s[0]] + s[1..];
      assert Elements(s) == {s[0]} + Elements(s[1..]);
      assert s[0] !in Elements(s[1..]);
    }
  }

  /** Where `x` comes first. */
  function IndexOf<T(==)>(s: seq<T>, x: T): (i: nat)
    requires x in s
    ensures i < |s| && s[i] == x && x !in s[..i]
  {
    if s[0] == x then 0 else 1 + IndexOf(s[1..], x)
  }

  lemma IndexOfSplit<T>(a: seq<T>, x: T, b: seq<T>)
    requires x !in a
    ensures x in a + [x] + b && IndexOf(a + [x] + b, x) == |a|
  {
    var s := a + [x] + b;
    assert s[|a|] == x;
    assert forall j :: 0 <= j < |a| ==> s[j] == a[j];
    var i := IndexOf(s, x);
    assert forall j :: 0 <= j < i ==> s[..i][j] == s[j];
  }

  /** The name of `n` letters. */
  function Letters(n: nat): string {
    seq(n, _ => 'a')
  }

  /** The names with this beginning and one letter up to `n` letters more. */
  function LetterNames(beginning: string, n: nat): seq<string> {
    seq(n, i requires 0 <= i < n => beginning + Letters(i + 1))
  }

  lemma LettersAscend(beginning: string, n: nat)
    ensures Ascending(LetterNames(beginning, n)) && |LetterNames(beginning, n)| == n
  {
    forall i, j | 0 <= i < j < n ensures Less(LetterNames(beginning, n)[i], LetterNames(beginning, n)[j]) {
      assert beginning + Letters(j + 1) == (beginning + Letters(i + 1)) + Letters(j - i);
      LessExtension(beginning + Letters(i + 1), Letters(j - i));
    }
  }

  // ---------------------------------------------------------------- paths

  const MAX_PATH_LENGTH := 4_096

  predicate StartsWith(s: string, p: string) {
    |p| <= |s| && s[..|p|] == p
  }

  predicate IsName(n: string) {
    n != [] && '/' !in n
  }

  function Under(p: string, n: string): string {
    p + "/" + n
  }

  lemma UnderInjective(p: string, a: string, b: string)
    requires Under(p, a) == Under(p, b)
    ensures a == b
  {
    assert Under(p, a)[|p| + 1..] == a && Under(p, b)[|p| + 1..] == b;
  }

  lemma UnderLess(p: string, a: string, b: string)
    ensures Less(Under(p, a), Under(p, b)) == Less(a, b)
  {
    LessCommonPrefix(p + "/", a, b);
  }

  lemma UnderStarts(p: string, a: string)
    ensures StartsWith(Under(p, a), p + "/")
    ensures Under(p, a)[|p| + 1..] == a
  {
  }

  /** Two different names, one slash each: what is below one is not below the other. */
  lemma {:induction false} NamesSeparate(m: string, n: string, a: string, b: string)
    requires IsName(m) && IsName(n)
    requires m + "/" + a == n + "/" + b
    ensures m == n && a == b
  {
    var s := m + "/" + a;
    assert s[|m|] == '/' && s[|n|] == '/';
    assert forall i :: 0 <= i < |m| ==> s[i] == m[i];
    assert forall i :: 0 <= i < |n| ==> s[i] == n[i];
    assert |m| == |n|;
    assert m == s[..|m|] && n == s[..|n|];
    assert a == s[|m| + 1..] && b == s[|n| + 1..];
  }
}
