// Text helpers: decimal rendering and parsing of integers, splitting and
// joining of strings at a separator character, and the order std::string
// compares in.
module Text {
  import Seqs

  predicate IsDigit(c: char) { '0' <= c <= '9' }

  function DigitChar(d: nat): (c: char)
    requires d < 10
    ensures IsDigit(c) && c as int - '0' as int == d
  {
    ['0', '1', '2', '3', '4', '5', '6', '7', '8', '9'][d]
  }

  /** Decimal digits of n, most significant first, without leading zeros. */
  function Decimal(n: nat): (s: string)
    ensures |s| > 0 && forall i :: 0 <= i < |s| ==> IsDigit(s[i])
    ensures |s| > 1 ==> s[0] != '0'
    decreases n
  {
    if n < 10 then [DigitChar(n)] else Decimal(n / 10) + [DigitChar(n % 10)]
  }

  function DigitValue(c: char): nat
    requires IsDigit(c)
  {
    c as int - '0' as int
  }

  /** Value of a string of decimal digits (0 for the empty string). */
  function DigitsValue(s: string): nat
    requires forall i :: 0 <= i < |s| ==> IsDigit(s[i])
  {
    if |s| == 0 then 0
    else 10 * DigitsValue(s[..|s| - 1]) + DigitValue(s[|s| - 1])
  }

  /** The digits that begin s: the longest all-digit prefix. */
  function LeadingDigits(s: string): (d: string)
    ensures |d| <= |s| && d == s[..|d|]
    ensures forall i :: 0 <= i < |d| ==> IsDigit(d[i])
    ensures |d| < |s| ==> !IsDigit(s[|d|])
  {
    if |s| == 0 || !IsDigit(s[0]) then "" else [s[0]] + LeadingDigits(s[1..])
  }

  lemma {:induction false} DecimalValue(n: nat)
    ensures DigitsValue(Decimal(n)) == n
    decreases n
  {
    if n >= 10 {
      DecimalValue(n / 10);
      var s := Decimal(n);
      assert s[..|s| - 1] == Decimal(n / 10);
    }
  }

  lemma {:induction false} LeadingDigitsOfDigits(s: string)
    requires forall i :: 0 <= i < |s| ==> IsDigit(s[i])
    ensures LeadingDigits(s) == s
  {
    if |s| > 0 {
      LeadingDigitsOfDigits(s[1..]);
    }
  }

  /** str.split(c): the pieces between occurrences of c; always at least one. */
  function Split(s: string, c: char): (parts: seq<string>)
    ensures |parts| >= 1
    ensures forall i :: 0 <= i < |parts| ==> c !in parts[i]
    decreases |s|
  {
    var i := Seqs.IndexOf(s, c);
    if i == |s| then [s] else [s[..i]] + Split(s[i + 1..], c)
  }

  /** c.join(parts). */
  function Join(parts: seq<string>, c: char): string
  {
    if |parts| == 0 then ""
    else if |parts| == 1 then parts[0]
    else parts[0] + [c] + Join(parts[1..], c)
  }

  lemma {:induction false} JoinSplit(s: string, c: char)
    ensures Join(Split(s, c), c) == s
    decreases |s|
  {
    var i := Seqs.IndexOf(s, c);
    if i < |s| {
      var head, tail := s[..i], s[i + 1..];
      SplitAt(s, c, i);
      JoinCons(head, Split(tail, c), c);
      JoinSplit(tail, c);
    }
  }

  /** Split at the first separator, which sits at i. */
  lemma SplitAt(s: string, c: char, i: nat)
    requires i == Seqs.IndexOf(s, c) < |s|
    ensures Split(s, c) == [s[..i]] + Split(s[i + 1..], c)
    ensures s == s[..i] + [c] + s[i + 1..]
  {
  }

  lemma JoinCons(p: string, rest: seq<string>, c: char)
    requires |rest| >= 1
    ensures Join([p] + rest, c) == p + [c] + Join(rest, c)
  {
    assert ([p] + rest)[1..] == rest;
  }

  lemma {:induction false} SplitJoin(parts: seq<string>, c: char)
    requires |parts| >= 1
    requires forall i :: 0 <= i < |parts| ==> c !in parts[i]
    ensures Split(Join(parts, c), c) == parts
  {
    if |parts| > 1 {
      SplitPrefix(parts[0], c, Join(parts[1..], c));
      SplitJoin(parts[1..], c);
      assert parts == [parts[0]] + parts[1..];
    }
  }

  /** A separator-free first piece splits off first. */
  lemma SplitPrefix(p: string, c: char, rest: string)
    requires c !in p
    ensures Split(p + [c] + rest, c) == [p] + Split(rest, c)
  {
    var s := p + [c] + rest;
    IndexOfAfterPrefix(p, c, rest);
    SplitAt(s, c, |p|);
    assert s[..|p|] == p;
    assert s[|p| + 1..] == rest;
  }

  lemma {:induction false} IndexOfAfterPrefix(p: string, c: char, rest: string)
    requires c !in p
    ensures Seqs.IndexOf(p + [c] + rest, c) == |p|
  {
    if |p| > 0 {
      assert (p + [c] + rest)[1..] == p[1..] + [c] + rest;
      IndexOfAfterPrefix(p[1..], c, rest);
    }
  }

  /** Splitting off the last piece: everything before the last c, c, and the
      last piece rebuild the joined string. */
  lemma {:induction false} JoinLast(parts: seq<string>, c: char)
    requires |parts| >= 2
    ensures Join(parts, c) == Join(parts[..|parts| - 1], c) + [c] + parts[|parts| - 1]
  {
    if |parts| > 2 {
      JoinLast(parts[1..], c);
      assert parts[1..][..|parts| - 2] == parts[..|parts| - 1][1..];
    }
  }

  // ---- std::string order ----

  /** a < b for std::string: character by character, and a proper prefix
      comes first. */
  predicate StrLess(a: string, b: string)
    decreases |a|
  {
    |b| > 0 && (|a| == 0 || a[0] < b[0] || (a[0] == b[0] && StrLess(a[1..], b[1..])))
  }

  /** The order std::map iterates its string keys in. */
  predicate Ascending(keys: seq<string>)
  {
    forall i, j :: 0 <= i < j < |keys| ==> StrLess(keys[i], keys[j])
  }

  lemma {:induction false} StrLessIrreflexive(a: string)
    ensures !StrLess(a, a)
    decreases |a|
  {
    if |a| > 0 {
      StrLessIrreflexive(a[1..]);
    }
  }

  lemma {:induction false} StrLessAsymmetric(a: string, b: string)
    requires StrLess(a, b)
    ensures !StrLess(b, a)
    decreases |a|
  {
    if |a| > 0 && a[0] == b[0] {
      StrLessAsymmetric(a[1..], b[1..]);
    }
  }

  /** Two distinct strings are ordered one way or the other. */
  lemma {:induction false} StrLessTotal(a: string, b: string)
    requires a != b
    ensures StrLess(a, b) || StrLess(b, a)
    decreases |a|
  {
    if |a| > 0 && |b| > 0 && a[0] == b[0] {
      assert a == [a[0]] + a[1..] && b == [b[0]] + b[1..];
      StrLessTotal(a[1..], b[1..]);
    }
  }

  lemma HeadIn(s: seq<string>)
    ensures |s| > 0 ==> s[0] in s
  {
  }

  /** The ascending listing of a set of strings is unique: two ascending
      lists with the same elements are the same list. */
  lemma {:induction false} AscendingUnique(k1: seq<string>, k2: seq<string>)
    requires Ascending(k1) && Ascending(k2)
    requires forall x :: x in k1 <==> x in k2
    ensures k1 == k2
    decreases |k1|
  {
    if |k1| == 0 {
      HeadIn(k2);
    } else {
      assert k1[0] in k1;
      var a, b := k1[0], k2[0];
      if a != b {
        assert b in k1;
        var i :| 0 <= i < |k1| && k1[i] == b;
        var j :| 0 <= j < |k2| && k2[j] == a;
        assert StrLess(a, b) && StrLess(b, a);
        StrLessAsymmetric(a, b);
      }
      forall x
        ensures x in k1[1..] <==> x in k2[1..]
      {
        if x in k1[1..] {
          var i :| 0 <= i < |k1[1..]| && k1[1..][i] == x;
          StrLessIrreflexive(a);
          assert x != b && x in k2;
          var j :| 0 <= j < |k2| && k2[j] == x;
          assert k2[1..][j - 1] == x;
        }
        if x in k2[1..] {
          var j :| 0 <= j < |k2[1..]| && k2[1..][j] == x;
          StrLessIrreflexive(b);
          assert x != a && x in k1;
          var i :| 0 <= i < |k1| && k1[i] == x;
          assert k1[1..][i - 1] == x;
        }
      }
      AscendingUnique(k1[1..], k2[1..]);
      assert k1 == [a] + k1[1..] && k2 == [b] + k2[1..];
    }
  }
}
