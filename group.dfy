// A group: a rectangle that holds other objects (src/Group.cpp). Membership
// (add, the two remove forms, removeAll), the naming rule that gives the
// group the common start of its members' names and each member the part that
// differs, the grid options a rearrangement asks for, and moving the group
// together with its members. Where members are placed by the grid is float
// arithmetic and is not modelled.
module Group {
  import opened RectangleBase
  import Seqs
  import LayoutManager

  /** Group(x, y): a rectangle named "Group" whose base colour is random (the
      random components are the parameter here, with alpha 0.7), locked with
      the lock shown, keeping its members' aspect and arranged in one column. */
  method NewGroup(x0: real, y0: real, random: Color) returns (g: Rect)
    ensures fresh(g)
    ensures g.kind == GroupKind && g.members == [] && g.group == null && g.rearranged == []
    ensures g.name == "Group" && !g.finalName && g.locked && g.showLockStatus
    ensures g.preserveChildAspect && g.rearrangeStyle == OneColumn
    ensures g.baseBColor == Color(random.r, random.g, random.b, 0.7) && g.destBColor == g.baseBColor
    ensures g.destX == x0 && g.destY == y0 && !g.selected && g.selectable
  {
    g := new Rect(x0, y0);
    g.kind := GroupKind;
    g.baseBColor := Color(random.r, random.g, random.b, 0.7);
    g.SetColor(g.baseBColor);
    g.name := "Group";
    g.locked, g.showLockStatus, g.preserveChildAspect := true, true, true;
    g.rearrangeStyle := OneColumn;
  }

  // ---- naming ----

  /** The cap the naming loop starts its shortest length from. */
  const MaxNameLength := 256

  /** The shortest name length, capped at 256, accumulated in list order. */
  function Shortest(names: seq<string>): (m: int)
    ensures 0 <= m <= MaxNameLength
    ensures forall k :: 0 <= k < |names| ==> m <= |names[k]|
    ensures m == MaxNameLength || exists k :: 0 <= k < |names| && m == |names[k]|
  {
    if |names| == 0 then MaxNameLength
    else
      var r := Shortest(names[..|names| - 1]);
      assert forall k :: 0 <= k < |names| - 1 ==> names[..|names| - 1][k] == names[k];
      if |names[|names| - 1]| < r then |names[|names| - 1]| else r
  }

  /** Every two neighbouring names have the same character at p. */
  predicate AgreeAt(names: seq<string>, p: int)
    requires 0 <= p < Shortest(names)
  {
    forall j :: 1 <= j < |names| ==> names[j - 1][p] == names[j][p]
  }

  /** Every name has the first name's character at p. */
  predicate AllSameAt(names: seq<string>, p: int)
    requires |names| > 0 && 0 <= p < Shortest(names)
  {
    forall k :: 0 <= k < |names| ==> names[k][p] == names[0][p]
  }

  /** The first position from p below bound where neighbouring names differ;
      bound when they agree all the way. */
  function FirstDifference(names: seq<string>, p: nat, bound: nat): (q: nat)
    requires p <= bound <= Shortest(names)
    ensures p <= q <= bound
    ensures forall i :: p <= i < q ==> AgreeAt(names, i)
    ensures q < bound ==> !AgreeAt(names, q)
    decreases bound - p
  {
    if p == bound then p
    else if !AgreeAt(names, p) then p
    else FirstDifference(names, p + 1, bound)
  }

  /** Where the common-prefix scan stops: the first position at which the
      names differ, or the shortest length less one when they never do (so
      -1 when some name is empty). */
  function PrefixEnd(names: seq<string>): (e: int)
    ensures -1 <= e < Shortest(names)
  {
    var s := Shortest(names);
    var q := FirstDifference(names, 0, s);
    if q < s then q else s - 1
  }

  /** std::string::rfind(c, pos) with npos written -1: the last c at or before
      pos, searching the whole string when pos is npos or past the end. */
  function RFind(s: string, c: char, pos: int): (r: int)
    ensures -1 <= r < |s|
    ensures r >= 0 ==> s[r] == c && (0 <= pos < |s| ==> r <= pos)
    ensures forall i :: r < i < |s| && (0 <= pos < |s| ==> i <= pos) ==> s[i] != c
  {
    LastAtOrBefore(s, c, if 0 <= pos < |s| then pos else |s| - 1)
  }

  function LastAtOrBefore(s: string, c: char, i: int): (r: int)
    requires -1 <= i < |s|
    ensures -1 <= r <= i
    ensures r >= 0 ==> s[r] == c
    ensures forall j :: r < j <= i ==> s[j] != c
    decreases i + 1
  {
    if i < 0 then -1 else if s[i] == c then i else LastAtOrBefore(s, c, i - 1)
  }

  /** std::string::find(c, pos) with npos written -1: the first c at or after
      pos; npos as the start finds nothing. */
  function Find(s: string, c: char, pos: int): (r: int)
    ensures r == -1 || (0 <= pos <= r < |s| && s[r] == c)
    ensures forall i :: 0 <= pos <= i < |s| && (r == -1 || i < r) ==> s[i] != c
  {
    if pos < 0 then -1 else FirstFrom(s, c, pos)
  }

  function FirstFrom(s: string, c: char, i: nat): (r: int)
    ensures r == -1 || (i <= r < |s| && s[r] == c)
    ensures forall j :: i <= j < |s| && (r == -1 || j < r) ==> s[j] != c
    decreases |s| - i
  {
    if i >= |s| then -1 else if s[i] == c then i else FirstFrom(s, c, i + 1)
  }

  /** The right-to-left scan for a lone member: a ')' in the last position
      opens the search, and it ends on the '(' that balances it. Yields the
      last '(' seen and the trailing ')', -1 for either not found. */
  function ParenScan(s: string, i: int, balance: int, start: int, end: int): (r: (int, int))
    requires -1 <= i < |s|
    ensures -1 <= start < |s| ==> -1 <= r.0 < |s|
    decreases i + 1
  {
    if i >= 0 && (balance != 0 || end == -1) then
      if s[i] == ')' then ParenScan(s, i - 1, balance + 1, start, if i == |s| - 1 then i else end)
      else if s[i] == '(' then ParenScan(s, i - 1, balance - 1, i, end)
      else ParenScan(s, i - 1, balance, start, end)
    else (start, end)
  }

  /** The split position with the parentheses found around it in the first
      name: (split, startParen, endParen). */
  function GroupSplit(names: seq<string>): (r: (int, int, int))
    requires |names| >= 1
  {
    if |names| > 1 then
      var s0 := PrefixEnd(names);
      var sp := RFind(names[0], '(', s0);
      var ep := Find(names[0], ')', s0);
      if ep != -1 && sp != -1 then (sp, sp, ep) else (s0, sp, ep)
    else
      var (sp, ep) := ParenScan(names[0], |names[0]| - 1, 0, -1, -1);
      if ep != -1 && sp != -1 then (sp, sp, ep) else (0, sp, ep)
  }

  /** The group's name: the first member's name cut at the split, or all of
      it when the split is not positive. */
  function GroupName(names: seq<string>): string
    requires |names| >= 1
  {
    var split := GroupSplit(names).0;
    if split > 0 then Substr(names[0], 0, split) else names[0]
  }

  /** The displayed part (nameStart, nameEnd) of a member called s: inside its
      parentheses around the split when it has both, otherwise from the split
      to its end. */
  function MemberSub(names: seq<string>, s: string): (int, int)
    requires |names| >= 1
  {
    var (split, sp, ep) := GroupSplit(names);
    SubOf(|names| > 1, split, sp, ep, s)
  }

  /** The substring rule for one member, given the split and the first
      name's parentheses; with several members the parentheses are looked
      for again in the member's own name. */
  function SubOf(several: bool, split: int, sp: int, ep: int, s: string): (int, int)
  {
    var (sk, ek) := if several then (RFind(s, '(', split), Find(s, ')', split)) else (sp, ep);
    if ek != -1 && sk != -1 then (sk + 1, ek) else (split, |s|)
  }

  /** A group is ready to be named when it has members and all of them have
      their final names. */
  predicate Finalized(ms: seq<Rect>)
    reads ms
  {
    |ms| > 0 && forall m :: m in ms ==> m.finalName
  }

  /** The group carries the name, and its members the substrings, that the
      naming rule gives for the members' names. */
  ghost predicate NamedBy(g: Rect)
    reads g, g.members
  {
    |g.members| > 0 &&
    var names := Names(g.members);
    g.name == GroupName(names) && g.finalName &&
    forall k :: 0 <= k < |g.members| ==>
      (g.members[k].nameStart, g.members[k].nameEnd) == MemberSub(names, names[k])
  }

  /** updateName: with members that all have final names, give the group the
      common part of their names and each member the part that is its own;
      report whether the group's name changed. Otherwise nothing changes. */
  method UpdateName(g: Rect) returns (changed: bool)
    requires g.kind == GroupKind && g !in g.members
    modifies g`name, g`finalName, g.members`nameStart, g.members`nameEnd
    ensures !old(Finalized(g.members)) ==>
              !changed && g.name == old(g.name) && g.finalName == old(g.finalName) &&
              forall m :: m in g.members ==> m.nameStart == old(m.nameStart) && m.nameEnd == old(m.nameEnd)
    ensures old(Finalized(g.members)) ==> NamedBy(g) && changed == (g.name != old(g.name))
  {
    var ms := g.members;
    var n := |ms|;
    if n == 0 {
      return false;
    }
    ghost var names := Names(ms);
    var finalized, shortest := ScanMembers(ms);
    if !finalized {
      return false;
    }

    var splitPos, startParen, endParen := FindSplit(ms, shortest);
    var oldName := g.name;
    ApplySplit(g, names, splitPos, startParen, endParen);
    changed := g.name != oldName;
  }

  /** The naming step of updateName once the split is known: the group
      takes the first name up to the split (all of it when the split is 0)
      and each member its own substring. */
  method ApplySplit(g: Rect, ghost names: seq<string>, splitPos: int, startParen: int, endParen: int)
    requires g !in g.members && |g.members| >= 1 && Names(g.members) == names
    requires GroupSplit(names) == (splitPos, startParen, endParen)
    modifies g`name, g`finalName, g.members`nameStart, g.members`nameEnd
    ensures NamedBy(g)
  {
    var ms := g.members;
    if splitPos > 0 {
      g.name := Substr(ms[0].name, 0, splitPos);
    } else {
      g.name := ms[0].name;
    }
    assert g.name == GroupName(names);
    SetMemberSubstrings(ms, names, splitPos, startParen, endParen);
    g.finalName := true;
    assert g.members == ms && Names(ms) == names;
    assert forall k :: 0 <= k < |ms| ==> (ms[k].nameStart, ms[k].nameEnd) == MemberSub(names, names[k]);
  }

  /** updateName's choice of the split position, with the parentheses it
      found in the first name. */
  method FindSplit(ms: seq<Rect>, shortest: int) returns (splitPos: int, startParen: int, endParen: int)
    requires |ms| >= 1 && shortest == Shortest(Names(ms))
    ensures (splitPos, startParen, endParen) == GroupSplit(Names(ms))
  {
    splitPos, startParen, endParen := 0, -1, -1;
    if |ms| > 1 {
      splitPos := CommonPrefixEnd(ms, shortest);
      startParen := RFind(ms[0].name, '(', splitPos);
      endParen := Find(ms[0].name, ')', splitPos);
      if endParen != -1 && startParen != -1 {
        splitPos := startParen;
      }
    } else {
      startParen, endParen := LoneNameParens(ms[0].name);
      if endParen != -1 && startParen != -1 {
        splitPos := startParen;
      }
    }
  }

  /** The common-prefix scan of updateName over two or more members: advance
      while every neighbouring pair agrees, then step back one. */
  method CommonPrefixEnd(ms: seq<Rect>, shortest: int) returns (splitPos: int)
    requires |ms| >= 2 && shortest == Shortest(Names(ms))
    ensures splitPos == PrefixEnd(Names(ms))
  {
    ghost var names := Names(ms);
    var n := |ms|;
    splitPos := 0;
    var equal := true;
    while equal && splitPos < shortest
      invariant 0 <= splitPos <= shortest
      invariant equal ==> forall p :: 0 <= p < splitPos ==> AgreeAt(names, p)
      invariant !equal ==> 1 <= splitPos && FirstDifference(names, 0, shortest) == splitPos - 1
      decreases shortest - splitPos
    {
      var j := 1;
      while j < n
        invariant 1 <= j <= n
        invariant equal == forall jj :: 1 <= jj < j ==> names[jj - 1][splitPos] == names[jj][splitPos]
      {
        equal := equal && ms[j - 1].name[splitPos] == ms[j].name[splitPos];
        j := j + 1;
      }
      assert equal == AgreeAt(names, splitPos);
      splitPos := splitPos + 1;
    }
    splitPos := splitPos - 1;
  }

  /** updateName's scan of a lone member's name, right to left. */
  method LoneNameParens(s: string) returns (startParen: int, endParen: int)
    ensures (startParen, endParen) == ParenScan(s, |s| - 1, 0, -1, -1)
  {
    startParen, endParen := -1, -1;
    var j := |s| - 1;
    var balance := 0;
    while j >= 0 && (balance != 0 || endParen == -1)
      invariant -1 <= j < |s|
      invariant ParenScan(s, j, balance, startParen, endParen) == ParenScan(s, |s| - 1, 0, -1, -1)
      decreases j + 1
    {
      if s[j] == ')' {
        if j == |s| - 1 {
          endParen := j;
        }
        balance := balance + 1;
      } else if s[j] == '(' {
        startParen := j;
        balance := balance - 1;
      }
      j := j - 1;
    }
  }

  /** updateName's last loop: each member gets its displayed substring. */
  method SetMemberSubstrings(ms: seq<Rect>, ghost names: seq<string>, splitPos: int, startParen: int, endParen: int)
    requires |names| == |ms| >= 1 && GroupSplit(names) == (splitPos, startParen, endParen)
    modifies ms`nameStart, ms`nameEnd
    ensures forall j :: 0 <= j < |ms| ==> (ms[j].nameStart, ms[j].nameEnd) == MemberSub(names, ms[j].name)
  {
    var n := |ms|;
    var k := 0;
    while k < n
      invariant 0 <= k <= n
      invariant forall j :: 0 <= j < k ==> (ms[j].nameStart, ms[j].nameEnd) == MemberSub(names, ms[j].name)
    {
      var sp, ep := startParen, endParen;
      if n > 1 {
        sp := RFind(ms[k].name, '(', splitPos);
        ep := Find(ms[k].name, ')', splitPos);
      }
      if ep != -1 && sp != -1 {
        ms[k].SetSubstring(sp + 1, ep);
      } else {
        ms[k].SetSubstring(splitPos, |ms[k].name|);
      }
      k := k + 1;
    }
  }

  /** updateName's first loop: whether every member has its final name, and
      the shortest name length capped at 256. */
  method ScanMembers(ms: seq<Rect>) returns (finalized: bool, shortest: int)
    ensures finalized == forall m :: m in ms ==> m.finalName
    ensures shortest == Shortest(Names(ms))
  {
    ghost var names := Names(ms);
    finalized := true;
    shortest := MaxNameLength;
    var i := 0;
    while i < |ms|
      invariant 0 <= i <= |ms|
      invariant finalized == forall j :: 0 <= j < i ==> ms[j].finalName
      invariant shortest == Shortest(names[..i])
    {
      finalized := finalized && ms[i].finalName;
      assert names[..i + 1][..i] == names[..i];
      if |ms[i].name| < shortest {
        shortest := |ms[i].name|;
      }
      i := i + 1;
    }
    assert names[..|ms|] == names;
  }

  /** Neighbouring agreement at p carries the first name's character to every
      name. */
  lemma {:induction false} AgreeAtAllSame(names: seq<string>, p: int, k: nat)
    requires |names| > 0 && 0 <= p < Shortest(names) && AgreeAt(names, p)
    requires k < |names|
    ensures names[k][p] == names[0][p]
  {
    if k > 0 {
      AgreeAtAllSame(names, p, k - 1);
    }
  }

  /** The prefix scan's stopping point: every name shares the first name's
      characters before it, and, short of the last position the shortest
      name allows, some name differs from the first exactly there. */
  lemma PrefixEndIsFirstDifference(names: seq<string>)
    requires |names| >= 2
    ensures var e := PrefixEnd(names);
            forall p :: 0 <= p < e ==> AllSameAt(names, p)
    ensures var e := PrefixEnd(names);
            0 <= e < Shortest(names) - 1 ==> !AllSameAt(names, e)
  {
    var e := PrefixEnd(names);
    forall p | 0 <= p < e
      ensures AllSameAt(names, p)
    {
      forall k | 0 <= k < |names| {
        AgreeAtAllSame(names, p, k);
      }
    }
    if 0 <= e < Shortest(names) - 1 {
      assert !AgreeAt(names, e);
      var j :| 1 <= j < |names| && names[j - 1][e] != names[j][e];
      assert names[j - 1][e] != names[0][e] || names[j][e] != names[0][e];
    }
  }

  /** With two or more members the group's name, when cut, is a common
      prefix of every member's name. */
  lemma GroupNameIsCommonPrefix(names: seq<string>)
    requires |names| >= 2 && GroupSplit(names).0 > 0
    ensures forall k :: 0 <= k < |names| ==> GroupName(names) <= names[k]
  {
    var split := GroupSplit(names).0;
    var e := PrefixEnd(names);
    assert split <= e;
    PrefixEndIsFirstDifference(names);
    assert GroupName(names) == names[0][..split];
    forall k | 0 <= k < |names|
      ensures names[0][..split] <= names[k]
    {
      forall p | 0 <= p < split
        ensures names[k][p] == names[0][p]
      {
        assert AllSameAt(names, p);
      }
    }
  }

  /** Without parentheses in any name, two or more members split at the end
      of their common prefix: the group takes that prefix (when it is not
      empty) and each member is shown from there to its end. */
  lemma NamingWithoutParentheses(names: seq<string>)
    requires |names| >= 2
    requires forall k, i :: 0 <= k < |names| && 0 <= i < |names[k]| ==> names[k][i] != '(' && names[k][i] != ')'
    ensures GroupSplit(names).0 == PrefixEnd(names)
    ensures PrefixEnd(names) > 0 ==> GroupName(names) == names[0][..PrefixEnd(names)]
    ensures PrefixEnd(names) <= 0 ==> GroupName(names) == names[0]
    ensures forall k :: 0 <= k < |names| ==> MemberSub(names, names[k]) == (PrefixEnd(names), |names[k]|)
  {
    var e := PrefixEnd(names);
    assert RFind(names[0], '(', e) == -1;
    forall k | 0 <= k < |names|
      ensures MemberSub(names, names[k]) == (e, |names[k]|)
    {
      assert RFind(names[k], '(', e) == -1;
    }
  }

  /** The scan through the text between the parentheses keeps its state. */
  lemma {:induction false} ScanSkipsPlain(s: string, lo: int, i: int, end: int)
    requires 0 <= lo <= i < |s| && end != -1
    requires forall j :: lo < j <= i ==> s[j] != '(' && s[j] != ')'
    ensures ParenScan(s, i, 1, -1, end) == ParenScan(s, lo, 1, -1, end)
    decreases i
  {
    if i > lo {
      ScanSkipsPlain(s, lo, i - 1, end);
    }
  }

  /** A lone member named p(inner), with no parentheses inside, shows inner
      and gives the group the name p (or its whole name when p is empty). */
  lemma SingleTrailingParentheses(p: string, inner: string)
    requires forall j :: 0 <= j < |inner| ==> inner[j] != '(' && inner[j] != ')'
    ensures var s := p + "(" + inner + ")";
            GroupSplit([s]).0 == |p| &&
            GroupName([s]) == (if |p| > 0 then p else s) &&
            MemberSub([s], s) == (|p| + 1, |s| - 1)
  {
    var s := p + "(" + inner + ")";
    var last := |s| - 1;
    assert s[last] == ')' && s[|p|] == '(';
    forall j | |p| < j <= last - 1
      ensures s[j] != '(' && s[j] != ')'
    {
      assert s[j] == inner[j - |p| - 1];
    }
    assert ParenScan(s, last, 0, -1, -1) == ParenScan(s, last - 1, 1, -1, last);
    ScanSkipsPlain(s, |p|, last - 1, last);
    assert ParenScan(s, |p|, 1, -1, last) == (|p|, last);
    assert s[..|p|] == p;
  }

  /** A lone member whose name does not end in ')' keeps its whole name as
      the group's name and is shown in full. */
  lemma SingleNoTrailingParenthesis(s: string)
    requires |s| == 0 || s[|s| - 1] != ')'
    ensures GroupName([s]) == s && MemberSub([s], s) == (0, |s|)
  {
    ScanNoEnd(s, |s| - 1, -1);
  }

  lemma {:induction false} ScanNoEnd(s: string, i: int, start: int)
    requires -1 <= i < |s| && (|s| == 0 || s[|s| - 1] != ')' || i < |s| - 1)
    ensures ParenScan(s, i, 0, start, -1).1 == -1
    decreases i + 1
  {
    if i >= 0 {
      if s[i] == ')' {
        ScanBalanceNoEnd(s, i - 1, 1, start);
      } else if s[i] == '(' {
        ScanBalanceNoEndNeg(s, i - 1, -1, i);
      } else {
        ScanNoEnd(s, i - 1, start);
      }
    }
  }

  /** Once the trailing position is passed without a ')', the end stays
      unset whatever the balance. */
  lemma {:induction false} ScanBalanceNoEnd(s: string, i: int, balance: int, start: int)
    requires -1 <= i < |s| - 1
    ensures ParenScan(s, i, balance, start, -1).1 == -1
    decreases i + 1
  {
    if i >= 0 {
      if s[i] == ')' {
        ScanBalanceNoEnd(s, i - 1, balance + 1, start);
      } else if s[i] == '(' {
        ScanBalanceNoEnd(s, i - 1, balance - 1, i);
      } else {
        ScanBalanceNoEnd(s, i - 1, balance, start);
      }
    }
  }

  lemma ScanBalanceNoEndNeg(s: string, i: int, balance: int, start: int)
    requires -1 <= i < |s| - 1
    ensures ParenScan(s, i, balance, start, -1).1 == -1
  {
    ScanBalanceNoEnd(s, i, balance, start);
  }

  /** After naming, every member's substring is one getSubName accepts. */
  lemma NamedSubstringsInRange(names: seq<string>, s: string)
    requires |names| >= 1 && s in names
    ensures var (st, en) := MemberSub(names, s);
            st != -1 && en != -1 ==> 0 <= st <= |s|
  {
    var k :| 0 <= k < |names| && names[k] == s;
    var (split, sp, ep) := GroupSplit(names);
    if |names| > 1 {
      assert -1 <= split <= PrefixEnd(names) < Shortest(names) <= |names[k]|;
    }
  }

  /** Two cameras in one room: the group is named "Room A " and each member
      shows the text inside its parentheses. */
  lemma TwoCamerasExample()
    ensures var names := ["Room A (cam1)", "Room A (cam2)"];
            GroupName(names) == "Room A " &&
            MemberSub(names, names[0]) == (8, 12) && MemberSub(names, names[1]) == (8, 12)
  {
    var names := ["Room A (cam1)", "Room A (cam2)"];
    assert Shortest(names[..1]) == 13;
    assert Shortest(names) == 13;
    forall p | 0 <= p < 11
      ensures AgreeAt(names, p)
    {
    }
    assert !AgreeAt(names, 11);
    assert FirstDifference(names, 0, 13) == 11;
    assert RFind(names[0], '(', 11) == 7;
    assert Find(names[0], ')', 11) == 12;
    assert RFind(names[1], '(', 7) == 7;
    assert Find(names[1], ')', 7) == 12;
  }

  // ---- membership ----

  /** add: append the object, make this its group, lay the members out
      (the list laid out includes the newcomer), then name the group (a
      runway keeps its name). */
  method Add(g: Rect, o: Rect)
    requires g.IsGroup() && o != g && g !in g.members
    modifies g`members, g`name, g`finalName, g`rearranged, o`group, o`nameStart, o`nameEnd
    modifies g.members`nameStart, g.members`nameEnd
    ensures g.members == old(g.members) + [o]
    ensures o.group == g
    ensures g.rearranged == old(g.rearranged) + [g.members]
    ensures g.kind == GroupKind && Finalized(g.members) ==> NamedBy(g)
    ensures g.kind == RunwayKind || !Finalized(g.members) ==>
              g.name == old(g.name) && g.finalName == old(g.finalName) &&
              forall m :: m in g.members ==> m.nameStart == old(m.nameStart) && m.nameEnd == old(m.nameEnd)
  {
    Join(g, o);
    ghost var fin := Finalized(g.members);
    if g.kind == GroupKind {
      var _ := UpdateName(g);
      assert fin == Finalized(g.members);
    }
  }

  /** The part of add before naming: o is appended, joins g, and the
      members are laid out. */
  method Join(g: Rect, o: Rect)
    requires g.IsGroup() && o != g
    modifies g`members, g`rearranged, o`group
    ensures g.members == old(g.members) + [o] && o.group == g
    ensures g.rearranged == old(g.rearranged) + [g.members]
  {
    g.members := g.members + [o];
    o.SetGroup(g);
    var _ := Rearrange(g);
  }

  /** remove(object, move): a null object or one that is not a member is
      only logged. A member leaves the group, loses its substring, and its
      entry is erased with the others keeping their order; with move, the
      members left (if any) are laid out again. */
  method Remove(g: Rect, o: Rect?, move: bool)
    requires g.IsGroup()
    modifies g`members, g`rearranged
    modifies (if o == null then {} else {o})`group, (if o == null then {} else {o})`nameStart
    modifies (if o == null then {} else {o})`nameEnd
    ensures o == null || o !in old(g.members) ==> g.members == old(g.members) && g.rearranged == old(g.rearranged)
    ensures o != null && o !in old(g.members) ==> unchanged(o)
    ensures o != null && o in old(g.members) ==>
              g.members == Seqs.RemoveAt(old(g.members), Seqs.IndexOf(old(g.members), o)) &&
              o.group == null && o.nameStart == -1 && o.nameEnd == -1 &&
              g.rearranged == old(g.rearranged) + (if move && |g.members| > 0 then [g.members] else [])
  {
    if o == null {
      return;
    }
    var i := Seqs.IndexOf(g.members, o);
    if i == |g.members| {
      return;
    }
    o.SetGroup(null);
    o.SetSubstring(-1, -1);
    g.members := g.members[..i] + g.members[i + 1..];
    if |g.members| > 0 && move {
      var _ := Rearrange(g);
    }
  }

  /** remove(iterator, move): the end position is only logged and returned;
      any other position loses its member as above and the next position,
      which is the same index, is returned. */
  method RemoveIndex(g: Rect, i: nat, move: bool) returns (next: nat)
    requires g.IsGroup() && i <= |g.members|
    modifies g`members, g`rearranged
    modifies (if i < |g.members| then {g.members[i]} else {})`group
    modifies (if i < |g.members| then {g.members[i]} else {})`nameStart
    modifies (if i < |g.members| then {g.members[i]} else {})`nameEnd
    ensures i == |old(g.members)| ==>
              g.members == old(g.members) && next == |g.members| && g.rearranged == old(g.rearranged)
    ensures i < |old(g.members)| ==>
              var o := old(g.members)[i];
              g.members == Seqs.RemoveAt(old(g.members), i) && next == i &&
              o.group == null && o.nameStart == -1 && o.nameEnd == -1 &&
              g.rearranged == old(g.rearranged) + (if move && |g.members| > 0 then [g.members] else [])
  {
    if i == |g.members| {
      return |g.members|;
    }
    var o := g.members[i];
    o.SetGroup(null);
    o.SetSubstring(-1, -1);
    g.members := g.members[..i] + g.members[i + 1..];
    next := i;
    if |g.members| > 0 && move {
      var _ := Rearrange(g);
    }
  }

  /** removeAll: remove from the front until the group is empty; every
      former member ends ungrouped with no substring. */
  method RemoveAll(g: Rect)
    requires g.IsGroup()
    modifies g`members, g`rearranged, g.members`group, g.members`nameStart, g.members`nameEnd
    ensures g.members == []
    ensures forall m :: m in old(g.members) ==> m.group == null && m.nameStart == -1 && m.nameEnd == -1
    ensures g.rearranged == old(g.rearranged)
  {
    ghost var ms := g.members;
    ghost var k := 0;
    var i := 0;
    while i != |g.members|
      invariant 0 <= k <= |ms| && g.members == ms[k..] && i == 0 && g.rearranged == old(g.rearranged)
      invariant forall j :: 0 <= j < k ==> ms[j].group == null && ms[j].nameStart == -1 && ms[j].nameEnd == -1
      decreases |g.members|
    {
      i := RemoveIndex(g, i, false);
      assert ms[k..][1..] == ms[k + 1..];
      k := k + 1;
    }
  }

  // ---- rearrangement ----

  /** The options a rearrangement passes to the grid for n members: whether
      to keep the members' aspect, and the dimensions its style asks for —
      a near-square grid, one row, or one column laid out vertically. */
  function RearrangeOptions(style: ArrangeStyle, n: nat, preserve: bool): (opts: map<string, string>)
    requires n > 0
  {
    var base := map["preserveAspect" := LayoutManager.Bool2Str(preserve)];
    match style
    case Aspect =>
      var cols := LayoutManager.CeilSqrt(n);
      base["numX" := LayoutManager.Int2Str(cols)]
          ["numY" := LayoutManager.Int2Str(n / cols + if n % cols > 0 then 1 else 0)]
    case OneRow =>
      base["numX" := LayoutManager.Int2Str(n)]["numY" := "1"]
    case OneColumn =>
      base["numX" := "1"]["numY" := LayoutManager.Int2Str(n)]["horiz" := "False"]
  }

  lemma OneReadsOne()
    ensures LayoutManager.Str2Int("1") == 1
  {
    LayoutManager.NoSpaceFirst("1");
    LayoutManager.ReadDigits("1");
    assert "1"[..0] == "";
  }

  /** rearrange: an empty group is left alone (the grid would divide by
      zero); otherwise the grid lays the members out with the options of
      the group's style, and the list laid out is recorded. The grid
      accepts every group below 2^31 members. */
  method Rearrange(g: Rect) returns (laidOut: bool)
    requires g.IsGroup()
    modifies g`rearranged
    ensures g.rearranged == old(g.rearranged) + (if |g.members| > 0 then [g.members] else [])
    ensures laidOut ==> |g.members| > 0
    ensures 0 < |g.members| < 0x8000_0000 ==> laidOut
  {
    if |g.members| == 0 {
      return false;
    }
    var opts := RearrangeOptions(g.rearrangeStyle, |g.members|, g.preserveChildAspect);
    laidOut := LayoutManager.GridArrange(map["objects" := g.members], opts);
    g.rearranged := g.rearranged + [g.members];
    if |g.members| < 0x8000_0000 {
      RearrangeAccepted(g.rearrangeStyle, g.members, g.preserveChildAspect);
    }
  }

  /** The grid accepts a group's rearrangement, for any style and any
      non-empty group below 2^31 members: the requested grid has a cell for
      every member, one row holds all of them, one column holds all of them. */
  lemma RearrangeAccepted<T>(style: ArrangeStyle, objects: seq<T>, preserve: bool)
    requires 0 < |objects| < 0x8000_0000
    ensures var n := |objects|;
            var o := RearrangeOptions(style, n, preserve);
            LayoutManager.Str2Int(o["numX"]) * LayoutManager.Str2Int(o["numY"]) >= n &&
            (style == OneRow ==> LayoutManager.Str2Int(o["numY"]) == 1) &&
            (style == OneColumn ==> LayoutManager.Str2Int(o["numX"]) == 1 && o["horiz"] == "False") &&
            LayoutManager.GridAccepts(map["objects" := objects], o)
  {
    var n := |objects|;
    match style {
      case Aspect => AspectAccepted(objects, preserve);
      case OneRow => LineAccepted(OneRow, objects, preserve);
      case OneColumn => LineAccepted(OneColumn, objects, preserve);
    }
  }

  /** The grid reads the dimensions a rearrangement asked for. */
  lemma GridReadsDims<T>(objects: seq<T>, o: map<string, string>)
    requires "numX" in o && "numY" in o
    ensures var d := LayoutManager.Defaulted(o, LayoutManager.GridDefaults);
            d["numX"] == o["numX"] && d["numY"] == o["numY"]
  {
  }

  /** The near-square grid: ceil(sqrt(n)) columns read back, and as many rows
      as needed, which is the grid's own automatic choice. */
  lemma AspectAccepted<T>(objects: seq<T>, preserve: bool)
    requires 0 < |objects| < 0x8000_0000
    ensures var n := |objects|;
            var o := RearrangeOptions(Aspect, n, preserve);
            LayoutManager.Str2Int(o["numX"]) * LayoutManager.Str2Int(o["numY"]) >= n &&
            LayoutManager.GridAccepts(map["objects" := objects], o)
  {
    var n := |objects|;
    var o := RearrangeOptions(Aspect, n, preserve);
    var d := LayoutManager.GridDims(n, 0, 0);
    AspectOptions(n, preserve);
    LayoutManager.IntRoundTrip(d.0);
    LayoutManager.IntRoundTrip(d.1);
    LayoutManager.AutoGridCovers(n);
    LayoutManager.AutoGridFits(n);
    GridReadsDims(objects, o);
    assert LayoutManager.GridDims(n, d.0, d.1) == d;
  }

  /** The near-square options: ceil(sqrt(n)) columns and the rows needed. */
  lemma AspectOptions(n: nat, preserve: bool)
    requires n > 0
    ensures var o := RearrangeOptions(Aspect, n, preserve);
            var d := LayoutManager.GridDims(n, 0, 0);
            "numX" in o && "numY" in o &&
            o["numX"] == LayoutManager.Int2Str(d.0) && o["numY"] == LayoutManager.Int2Str(d.1)
  {
  }

  /** One row or one column of n cells. */
  lemma LineAccepted<T>(style: ArrangeStyle, objects: seq<T>, preserve: bool)
    requires style != Aspect && 0 < |objects| < 0x8000_0000
    ensures var n := |objects|;
            var o := RearrangeOptions(style, n, preserve);
            LayoutManager.Str2Int(o["numX"]) * LayoutManager.Str2Int(o["numY"]) >= n &&
            (style == OneRow ==> LayoutManager.Str2Int(o["numY"]) == 1) &&
            (style == OneColumn ==> LayoutManager.Str2Int(o["numX"]) == 1 && o["horiz"] == "False") &&
            LayoutManager.GridAccepts(map["objects" := objects], o)
  {
    var n := |objects|;
    var o := RearrangeOptions(style, n, preserve);
    var x, y := LineDims(style, n, preserve);
    GivenGridAccepts(objects, o, x, y);
  }

  /** The dimensions a one-row or one-column rearrangement asks for, as the
      grid reads them. */
  lemma LineDims(style: ArrangeStyle, n: nat, preserve: bool) returns (x: int, y: int)
    requires style != Aspect && n > 0
    ensures var o := RearrangeOptions(style, n, preserve);
            "numX" in o && "numY" in o &&
            LayoutManager.Str2Int(o["numX"]) == x && LayoutManager.Str2Int(o["numY"]) == y &&
            0 < x && 0 < y && x * y == n &&
            (style == OneRow ==> x == n && y == 1) &&
            (style == OneColumn ==> x == 1 && y == n && o["horiz"] == "False")
  {
    var o := RearrangeOptions(style, n, preserve);
    OneReadsOne();
    LayoutManager.IntRoundTrip(n);
    if style == OneRow {
      RowOptions(n, preserve);
      x, y := n, 1;
    } else {
      ColumnOptions(n, preserve);
      x, y := 1, n;
    }
  }

  /** The one-row options: n columns and one row. */
  lemma RowOptions(n: nat, preserve: bool)
    requires n > 0
    ensures var o := RearrangeOptions(OneRow, n, preserve);
            "numX" in o && "numY" in o && o["numX"] == LayoutManager.Int2Str(n) && o["numY"] == "1"
  {
  }

  /** The one-column options: one column of n rows, laid out vertically. */
  lemma ColumnOptions(n: nat, preserve: bool)
    requires n > 0
    ensures var o := RearrangeOptions(OneColumn, n, preserve);
            "numX" in o && "numY" in o && "horiz" in o &&
            o["numX"] == "1" && o["numY"] == LayoutManager.Int2Str(n) && o["horiz"] == "False"
  {
  }

  /** A grid whose given dimensions read as x by y, neither zero, accepts
      the objects when it has a cell for each. */
  lemma GivenGridAccepts<T>(objects: seq<T>, o: map<string, string>, x: int, y: int)
    requires 0 < |objects| < 0x8000_0000 && "numX" in o && "numY" in o
    requires LayoutManager.Str2Int(o["numX"]) == x && LayoutManager.Str2Int(o["numY"]) == y
    requires 0 < x && 0 < y && |objects| <= x * y < 0x1_0000_0000
    ensures LayoutManager.GridAccepts(map["objects" := objects], o)
  {
    GridReadsDims(objects, o);
    assert LayoutManager.GridDims(|objects|, x, y) == (x, y);
  }

  // ---- moving ----

  /** move: every member moves by the group's own displacement, then the
      group moves; members keep their offsets from the group's destination.
      Members are plain objects listed once (groups are never nested). */
  method Move(g: Rect, nx: real, ny: real)
    requires g.IsGroup() && g !in g.members
    requires forall m :: m in g.members ==> !m.IsGroup()
    requires forall i, j :: 0 <= i < j < |g.members| ==> g.members[i] != g.members[j]
    modifies g`destX, g`destY, g`x, g`y, g`positionAnimating
    modifies g.members`destX, g.members`destY, g.members`x, g.members`y, g.members`positionAnimating
    ensures g.destX == nx && g.destY == ny
    ensures !g.animated ==> g.x == nx && g.y == ny && g.positionAnimating == old(g.positionAnimating)
    ensures g.animated ==> g.x == old(g.x) && g.y == old(g.y) && g.positionAnimating
    ensures forall m :: m in g.members ==>
              m.destX - g.destX == old(m.destX - g.destX) && m.destY - g.destY == old(m.destY - g.destY)
    ensures forall m :: m in g.members ==>
              (!m.animated ==> m.x == m.destX && m.y == m.destY && m.positionAnimating == old(m.positionAnimating)) &&
              (m.animated ==> m.x == old(m.x) && m.y == old(m.y) && m.positionAnimating)
  {
    var ms := g.members;
    var i := 0;
    while i < |ms|
      invariant 0 <= i <= |ms| && g.destX == old(g.destX) && g.destY == old(g.destY)
      invariant forall j :: 0 <= j < i ==>
                  ms[j].destX == old(ms[j].destX) + (nx - g.destX) && ms[j].destY == old(ms[j].destY) + (ny - g.destY)
      invariant forall j :: 0 <= j < i ==>
                  (!ms[j].animated ==> ms[j].x == ms[j].destX && ms[j].y == ms[j].destY &&
                                       ms[j].positionAnimating == old(ms[j].positionAnimating)) &&
                  (ms[j].animated ==> ms[j].x == old(ms[j].x) && ms[j].y == old(ms[j].y) && ms[j].positionAnimating)
      invariant forall j :: i <= j < |ms| ==> ms[j].destX == old(ms[j].destX) && ms[j].destY == old(ms[j].destY)
      invariant forall j :: i <= j < |ms| ==>
                  ms[j].x == old(ms[j].x) && ms[j].y == old(ms[j].y) && ms[j].positionAnimating == old(ms[j].positionAnimating)
      invariant unchanged(g`x, g`y, g`positionAnimating)
    {
      ms[i].Move(nx + ms[i].destX - g.destX, ny + ms[i].destY - g.destY);
      i := i + 1;
    }
    g.Move(nx, ny);
  }

  /** setPos: as move, with every position set at once. */
  method SetPos(g: Rect, nx: real, ny: real)
    requires g.IsGroup() && g !in g.members
    requires forall m :: m in g.members ==> !m.IsGroup()
    requires forall i, j :: 0 <= i < j < |g.members| ==> g.members[i] != g.members[j]
    modifies g`destX, g`destY, g`x, g`y
    modifies g.members`destX, g.members`destY, g.members`x, g.members`y
    ensures g.destX == nx && g.destY == ny && g.x == nx && g.y == ny
    ensures forall m :: m in g.members ==>
              m.destX - g.destX == old(m.destX - g.destX) && m.destY - g.destY == old(m.destY - g.destY) &&
              m.x == m.destX && m.y == m.destY
  {
    var ms := g.members;
    var i := 0;
    while i < |ms|
      invariant 0 <= i <= |ms| && g.destX == old(g.destX) && g.destY == old(g.destY)
      invariant forall j :: 0 <= j < i ==>
                  ms[j].destX == old(ms[j].destX) + (nx - g.destX) && ms[j].destY == old(ms[j].destY) + (ny - g.destY) &&
                  ms[j].x == ms[j].destX && ms[j].y == ms[j].destY
      invariant forall j :: i <= j < |ms| ==> ms[j].destX == old(ms[j].destX) && ms[j].destY == old(ms[j].destY)
    {
      ms[i].SetPos(nx + ms[i].destX - g.destX, ny + ms[i].destY - g.destY);
      i := i + 1;
    }
    g.SetPos(nx, ny);
  }
}
