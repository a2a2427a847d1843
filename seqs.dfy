// Sequence helpers shared by the models of the program's std::vector
// book-keeping: lookup of the first occurrence and single-element erase.
module Seqs {

  /** Position of the first element equal to x, or |s| when there is none
      (the iterator that std::find returns, with end() as |s|). */
  function IndexOf<T(==)>(s: seq<T>, x: T): (i: nat)
    ensures i <= |s|
    ensures i < |s| <==> x in s
    ensures i < |s| ==> s[i] == x
    ensures forall j :: 0 <= j < i ==> s[j] != x
  {
    if |s| == 0 then 0
    else if s[0] == x then 0
    else 1 + IndexOf(s[1..], x)
  }

  /** vector::erase at position i: the others keep their order. */
  function RemoveAt<T>(s: seq<T>, i: nat): (r: seq<T>)
    requires i < |s|
    ensures |r| == |s| - 1
    ensures forall j :: 0 <= j < i ==> r[j] == s[j]
    ensures forall j :: i <= j < |r| ==> r[j] == s[j + 1]
  {
    s[..i] + s[i + 1..]
  }

  /** Erase of the first occurrence of x; s itself when x is absent. */
  function RemoveFirst<T(==)>(s: seq<T>, x: T): seq<T>
  {
    var i := IndexOf(s, x);
    if i < |s| then RemoveAt(s, i) else s
  }

  /** Erasing one element keeps every other element present. */
  lemma RemoveFirstKeepsOthers<T>(s: seq<T>, x: T, y: T)
    requires y in s && y != x
    ensures y in RemoveFirst(s, x)
  {
    var k :| 0 <= k < |s| && s[k] == y;
    var i := IndexOf(s, x);
    if i < |s| {
      if k < i {
        assert RemoveFirst(s, x)[k] == y;
      } else {
        assert RemoveFirst(s, x)[k - 1] == y;
      }
    }
  }

  lemma RemoveAtMultiset<T>(s: seq<T>, i: nat)
    requires i < |s|
    ensures multiset(RemoveAt(s, i)) == multiset(s) - multiset{s[i]}
  {
    assert s == s[..i] + [s[i]] + s[i + 1..];
  }

  /** Erasing the first occurrence removes exactly one copy of x and
      nothing else. */
  lemma RemoveFirstMultiset<T>(s: seq<T>, x: T)
    ensures multiset(RemoveFirst(s, x)) == multiset(s) - multiset{x}
  {
    var i := IndexOf(s, x);
    if i < |s| {
      RemoveAtMultiset(s, i);
    } else {
      assert multiset(s)[x] == 0;
    }
  }

  function Reverse<T>(s: seq<T>): (r: seq<T>)
    ensures |r| == |s|
  {
    if |s| == 0 then [] else Reverse(s[1..]) + [s[0]]
  }

  lemma {:induction false} ReverseAppend<T>(s: seq<T>, t: seq<T>)
    ensures Reverse(s + t) == Reverse(t) + Reverse(s)
    decreases |s|
  {
    if |s| == 0 {
      assert s + t == t;
    } else {
      assert (s + t)[1..] == s[1..] + t;
      ReverseAppend(s[1..], t);
    }
  }

  /** Turning a sequence back twice gives it back. */
  lemma {:induction false} ReverseTwice<T>(s: seq<T>)
    ensures Reverse(Reverse(s)) == s
    decreases |s|
  {
    if |s| > 0 {
      ReverseAppend(Reverse(s[1..]), [s[0]]);
      ReverseTwice(s[1..]);
      assert Reverse([s[0]]) == [s[0]];
      assert [s[0]] + s[1..] == s;
    }
  }

  /** The elements of s that are in S, in their order in s. */
  function Select<T>(s: seq<T>, S: set<T>): (r: seq<T>)
    ensures |r| <= |s|
    ensures forall i :: 0 <= i < |r| ==> r[i] in s && r[i] in S
    ensures forall i :: 0 <= i < |s| && s[i] in S ==> s[i] in r
  {
    if |s| == 0 then [] else (if s[0] in S then [s[0]] else []) + Select(s[1..], S)
  }

  /** Selecting from a longer sequence extends the selection. */
  lemma {:induction false} SelectAppend<T>(s: seq<T>, x: T, S: set<T>)
    ensures Select(s + [x], S) == Select(s, S) + (if x in S then [x] else [])
    decreases |s|
  {
    if |s| == 0 {
      assert [x][1..] == [];
    } else {
      assert (s + [x])[1..] == s[1..] + [x];
      SelectAppend(s[1..], x, S);
    }
  }

  /** The elements of s that are not in S, in their order in s. */
  function Drop<T>(s: seq<T>, S: set<T>): seq<T>
  {
    if |s| == 0 then [] else (if s[0] in S then [] else [s[0]]) + Drop(s[1..], S)
  }

  /** Dropping keeps exactly the elements outside S, and never lengthens. */
  lemma {:induction false} DropKeeps<T>(s: seq<T>, S: set<T>)
    ensures var r := Drop(s, S);
            |r| <= |s| &&
            (forall i :: 0 <= i < |r| ==> r[i] in s && r[i] !in S) &&
            (forall i :: 0 <= i < |s| && s[i] !in S ==> s[i] in r)
    decreases |s|
  {
    if |s| > 0 {
      var t := s[1..];
      DropKeeps(t, S);
      assert s == [s[0]] + t;
      DropCons(s[0], t, S);
    }
  }

  /** Dropping from a sequence with a given head. */
  lemma DropCons<T>(h: T, t: seq<T>, S: set<T>)
    ensures Drop([h] + t, S) == (if h in S then [] else [h]) + Drop(t, S)
  {
    assert ([h] + t)[1..] == t;
  }

  /** Dropping what is not there changes nothing. */
  lemma {:induction false} DropNothing<T>(s: seq<T>, S: set<T>)
    requires forall i :: 0 <= i < |s| ==> s[i] !in S
    ensures Drop(s, S) == s
    decreases |s|
  {
    if |s| > 0 {
      DropNothing(s[1..], S);
      assert s == [s[0]] + s[1..];
    }
  }

  /** Dropping one set and then another drops their union. */
  lemma {:induction false} DropTwice<T>(s: seq<T>, A: set<T>, B: set<T>)
    ensures Drop(Drop(s, A), B) == Drop(s, A + B)
    decreases |s|
  {
    if |s| > 0 {
      DropTwice(s[1..], A, B);
      assert s == [s[0]] + s[1..];
      DropCons(s[0], s[1..], A);
      DropCons(s[0], s[1..], A + B);
      if s[0] !in A {
        assert Drop(s, A) == [s[0]] + Drop(s[1..], A);
        DropCons(s[0], Drop(s[1..], A), B);
      } else {
        assert Drop(s, A) == Drop(s[1..], A);
      }
    }
  }

  /** The erase-while-iterating loop: every occurrence of x goes, the rest
      keep their order. */
  method EraseAll<T(==)>(s: seq<T>, x: T) returns (r: seq<T>)
    ensures r == Drop(s, {x})
  {
    r := s;
    var j := 0;
    while j < |r|
      invariant 0 <= j <= |r|
      invariant Drop(s, {x}) == r[..j] + Drop(r[j..], {x})
      decreases |r| - j
    {
      EraseStep(r, j, x);
      if r[j] == x {
        r := r[..j] + r[j + 1..];
      } else {
        j := j + 1;
      }
    }
    assert r[..j] == r && r[j..] == [];
  }

  /** The elements of xs as a set. */
  function Elements<T>(xs: seq<T>): set<T>
  {
    set x | x in xs
  }

  /** For each of xs in turn, every occurrence goes: what is left is s
      without any element of xs. */
  method EraseEach<T(==)>(s: seq<T>, xs: seq<T>) returns (r: seq<T>)
    ensures r == Drop(s, Elements(xs))
  {
    r := s;
    DropNothing(s, {});
    assert Elements(xs[..0]) == {};
    var k := 0;
    while k < |xs|
      invariant 0 <= k <= |xs|
      invariant r == Drop(s, Elements(xs[..k]))
    {
      DropTwice(s, Elements(xs[..k]), {xs[k]});
      assert Elements(xs[..k + 1]) == Elements(xs[..k]) + {xs[k]} by {
        assert xs[..k + 1] == xs[..k] + [xs[k]];
      }
      r := EraseAll(r, xs[k]);
      k := k + 1;
    }
    assert xs[..k] == xs;
  }

  /** One turn of that loop keeps what is dropped from the whole. */
  lemma EraseStep<T>(r: seq<T>, j: int, x: T)
    requires 0 <= j < |r|
    ensures r[j] == x ==>
              var r' := r[..j] + r[j + 1..];
              r'[..j] + Drop(r'[j..], {x}) == r[..j] + Drop(r[j..], {x})
    ensures r[j] != x ==> r[..j + 1] + Drop(r[j + 1..], {x}) == r[..j] + Drop(r[j..], {x})
  {
    assert r[j..] == [r[j]] + r[j + 1..];
    DropCons(r[j], r[j + 1..], {x});
    var r' := r[..j] + r[j + 1..];
    assert r'[..j] == r[..j] && r'[j..] == r[j + 1..];
    assert r[..j + 1] == r[..j] + [r[j]];
  }

  /** Erase the first occurrence of each of xs in turn. */
  function RemoveEach<T(==)>(s: seq<T>, xs: seq<T>): seq<T>
    decreases |xs|
  {
    if |xs| == 0 then s else RemoveEach(RemoveFirst(s, xs[0]), xs[1..])
  }

  /** Selecting from s the members of a set of its elements yields
      something exactly when the set is not empty. */
  lemma SelectNonEmpty<T>(s: seq<T>, S: set<T>)
    requires S <= set x | x in s
    ensures |Select(s, S)| > 0 <==> S != {}
  {
    var r := Select(s, S);
    if S != {} {
      var x :| x in S;
      var k :| 0 <= k < |s| && s[k] == x;
      assert s[k] in r;
    }
    if |r| > 0 {
      assert r[0] in S;
    }
  }

  /** Erasing each of a suffix of xs: the first of it goes first. */
  lemma RemoveEachStep<T>(s: seq<T>, xs: seq<T>, i: int)
    requires 0 <= i < |xs|
    ensures RemoveEach(s, xs[i..]) == RemoveEach(RemoveFirst(s, xs[i]), xs[i + 1..])
  {
    assert xs[i..][1..] == xs[i + 1..];
  }

  lemma RemoveFirstPastHead<T>(a: T, t: seq<T>, x: T)
    requires x != a
    ensures RemoveFirst([a] + t, x) == [a] + RemoveFirst(t, x)
  {
    assert ([a] + t)[1..] == t;
    var i := IndexOf(t, x);
    if i < |t| {
      assert ([a] + t)[..i + 1] + ([a] + t)[i + 2..] == [a] + (t[..i] + t[i + 1..]);
    }
  }

  lemma {:induction false} RemoveEachPastHead<T>(a: T, t: seq<T>, xs: seq<T>)
    requires a !in xs
    ensures RemoveEach([a] + t, xs) == [a] + RemoveEach(t, xs)
    decreases |xs|
  {
    if |xs| > 0 {
      RemoveFirstPastHead(a, t, xs[0]);
      RemoveEachPastHead(a, RemoveFirst(t, xs[0]), xs[1..]);
    }
  }

  /** Erasing, one at a time and in order, the elements that a selection
      picked out of s leaves exactly the elements it did not pick. */
  lemma {:induction false} RemoveSelected<T>(s: seq<T>, S: set<T>)
    ensures RemoveEach(s, Select(s, S)) == Drop(s, S)
    decreases |s|
  {
    if |s| > 0 {
      var x := Select(s, S);
      var rest := Select(s[1..], S);
      RemoveSelected(s[1..], S);
      if s[0] in S {
        assert x == [s[0]] + rest;
        assert x[0] == s[0] && x[1..] == rest;
        assert IndexOf(s, s[0]) == 0;
        assert RemoveFirst(s, s[0]) == s[1..];
        assert RemoveEach(s, x) == RemoveEach(s[1..], rest);
        assert Drop(s, S) == Drop(s[1..], S);
      } else {
        assert x == rest;
        assert s[0] !in rest;
        assert s == [s[0]] + s[1..];
        RemoveEachPastHead(s[0], s[1..], rest);
        assert Drop(s, S) == [s[0]] + Drop(s[1..], S);
      }
    }
  }

  /** No element appears twice. */
  predicate Distinct<T(==)>(s: seq<T>)
  {
    forall i, j :: 0 <= i < j < |s| ==> s[i] != s[j]
  }

  /** A selection from a sequence without repeats has no repeats. */
  lemma {:induction false} SelectDistinct<T>(s: seq<T>, S: set<T>)
    requires Distinct(s)
    ensures Distinct(Select(s, S))
    decreases |s|
  {
    if |s| > 0 {
      SelectDistinct(s[1..], S);
      var rest := Select(s[1..], S);
      assert forall i :: 0 <= i < |rest| ==> rest[i] in s[1..];
      assert s[0] !in s[1..];
    }
  }

  /** Erasing from a sequence without repeats leaves no copy of x, keeps
      every other element and adds no repeats. */
  lemma RemoveFirstDistinct<T>(s: seq<T>, x: T)
    requires Distinct(s)
    ensures Distinct(RemoveFirst(s, x)) && x !in RemoveFirst(s, x)
    ensures forall y :: y != x ==> (y in RemoveFirst(s, x) <==> y in s)
  {
    var r := RemoveFirst(s, x);
    forall y | y != x && y in s
      ensures y in r
    {
      RemoveFirstKeepsOthers(s, x, y);
    }
    var i := IndexOf(s, x);
    if i < |s| {
      assert forall j :: 0 <= j < |r| ==> r[j] == s[if j < i then j else j + 1];
    }
  }

  /** Erase every x from the front of xs in turn, with the last one erased
      last: RemoveEach grown at its end. */
  lemma {:induction false} RemoveEachSnoc<T>(s: seq<T>, xs: seq<T>, x: T)
    ensures RemoveEach(s, xs + [x]) == RemoveFirst(RemoveEach(s, xs), x)
    decreases |xs|
  {
    if |xs| == 0 {
      assert xs + [x] == [x];
      assert [x][1..] == [];
    } else {
      assert (xs + [x])[0] == xs[0];
      assert (xs + [x])[1..] == xs[1..] + [x];
      RemoveEachSnoc(RemoveFirst(s, xs[0]), xs[1..], x);
    }
  }

  /** RemoveEach over one more element of a prefix of xs. */
  lemma RemoveEachPrefix<T>(s: seq<T>, xs: seq<T>, i: int)
    requires 0 <= i < |xs|
    ensures RemoveEach(s, xs[..i + 1]) == RemoveFirst(RemoveEach(s, xs[..i]), xs[i])
  {
    assert xs[..i + 1] == xs[..i] + [xs[i]];
    RemoveEachSnoc(s, xs[..i], xs[i]);
  }

  /** Select over one more element of a prefix of s. */
  lemma SelectPrefix<T>(s: seq<T>, S: set<T>, i: int)
    requires 0 <= i < |s|
    ensures Select(s[..i + 1], S) == Select(s[..i], S) + (if s[i] in S then [s[i]] else [])
  {
    assert s[..i + 1] == s[..i] + [s[i]];
    SelectAppend(s[..i], s[i], S);
  }

  /** Appending one more element of a prefix of xs. */
  lemma AppendPrefix<T>(a: seq<T>, xs: seq<T>, i: int)
    requires 0 <= i < |xs|
    ensures a + xs[..i + 1] == (a + xs[..i]) + [xs[i]]
  {
    assert xs[..i + 1] == xs[..i] + [xs[i]];
  }

  /** The search loop of std::find: the first position holding x, or |s|. */
  method Position<T(==)>(s: seq<T>, x: T) returns (i: nat)
    ensures i == IndexOf(s, x)
  {
    i := 0;
    while i < |s| && s[i] != x
      invariant i <= |s|
      invariant forall j :: 0 <= j < i ==> s[j] != x
    {
      i := i + 1;
    }
  }

  /** A linear search for x followed by vector::erase when it is found. */
  method Erase<T(==)>(s: seq<T>, x: T) returns (r: seq<T>)
    ensures r == RemoveFirst(s, x)
  {
    var i := Position(s, x);
    if i < |s| {
      r := RemoveAt(s, i);
    } else {
      r := s;
    }
  }

  /** Erase the first x and push it to the back (brought to the top of a
      drawing order); s itself when x is absent. Nothing is lost or added. */
  function ToTop<T(==)>(s: seq<T>, x: T): (r: seq<T>)
    ensures multiset(r) == multiset(s)
    ensures x in s ==> |r| == |s| && r[|r| - 1] == x && r[..|r| - 1] == RemoveFirst(s, x)
    ensures x !in s ==> r == s
  {
    if x in s then
      RemoveFirstMultiset(s, x);
      assert multiset(s)[x] > 0;
      RemoveFirst(s, x) + [x]
    else s
  }

  /** Bring each of xs to the back in turn, the last one last. */
  function ToTopEach<T(==)>(s: seq<T>, xs: seq<T>): (r: seq<T>)
    ensures multiset(r) == multiset(s)
    decreases |xs|
  {
    if |xs| == 0 then s else ToTop(ToTopEach(s, xs[..|xs| - 1]), xs[|xs| - 1])
  }
}
