// The runway (src/Runway.cpp): a group along the screen edge that holds new
// sources until the user drags them out. Its name never follows its
// members', and members whose centre the user has moved outside it are let
// go. The bounds it tests against are the destination bounds
// (RectangleBase.LBound and friends).
module Runway {
  import opened RectangleBase
  import Seqs
  import Group

  const RunwayColor := Color(0.4, 0.4, 0.4, 0.35)

  /** Runway(x, y): a group that is unlocked, not selectable and not movable
      by the user, named "Runway", arranged in one column, grey, with its
      border starting transparent. The random colour the group constructor
      draws is overwritten, so it does not matter here. */
  method NewRunway(x0: real, y0: real) returns (r: Rect)
    ensures fresh(r)
    ensures r.kind == RunwayKind && r.members == [] && r.group == null
    ensures !r.locked && !r.selectable && !r.userMovable && !r.selected
    ensures r.name == "Runway" && r.rearrangeStyle == OneColumn
    ensures r.baseBColor == RunwayColor && r.destBColor == RunwayColor
    ensures r.destX == x0 && r.destY == y0
  {
    r := Group.NewGroup(x0, y0, ClearColor);
    r.kind := RunwayKind;
    r.locked, r.selectable, r.userMovable := false, false, false;
    r.name := "Runway";
    r.rearrangeStyle := OneColumn;
    r.destBColor := RunwayColor;
    r.baseBColor := r.destBColor;
    r.borderColor := r.borderColor.(a := 0.0);
    r.SetColor(r.destBColor);
  }

  /** updateName: a runway's name does not depend on its members; it never
      changes and the answer is always "unchanged". */
  method UpdateName(r: Rect) returns (changed: bool)
    requires r.kind == RunwayKind
    ensures !changed
  {
    changed := false;
  }

  /** The member's destination centre lies strictly outside the runway's
      destination bounds on some side. */
  predicate CentreOutside(r: Rect, m: Rect)
    reads r, m
  {
    m.destX > r.RBound() || m.destX < r.LBound() || m.destY > r.UBound() || m.destY < r.DBound()
  }

  /** The members that checkMemberIntersect reports: not selected (the user
      may be dragging those) and centred outside the runway. */
  function Reported(r: Rect, ms: seq<Rect>): (s: set<Rect>)
    reads r, ms
    ensures forall i :: 0 <= i < |ms| ==> (ms[i] in s <==> !ms[i].selected && CentreOutside(r, ms[i]))
    ensures s <= set m | m in ms
  {
    set m | m in ms && !m.selected && CentreOutside(r, m)
  }

  /** No member is selected. */
  predicate NoneSelected(ms: seq<Rect>)
    reads ms
  {
    forall m :: m in ms ==> !m.selected
  }

  /** checkMemberIntersect: the reported members in member order. Only when
      nothing is outside and no member is selected (the user may be
      dragging one) does the runway lay its members out again. Membership
      is not touched. */
  method CheckMemberIntersect(r: Rect) returns (outside: seq<Rect>)
    requires r.kind == RunwayKind
    modifies r`rearranged
    ensures outside == old(Seqs.Select(r.members, Reported(r, r.members)))
    ensures r.rearranged == old(r.rearranged) +
              (if |outside| == 0 && old(NoneSelected(r.members)) && |r.members| > 0 then [r.members] else [])
  {
    var ms := r.members;
    ghost var report := Reported(r, ms);
    outside := [];
    var foundSelected := false;
    var i := 0;
    while i < |ms|
      invariant 0 <= i <= |ms|
      invariant outside == Seqs.Select(ms[..i], report)
      invariant foundSelected <==> exists j :: 0 <= j < i && ms[j].selected
      invariant r.rearranged == old(r.rearranged)
    {
      var o := ms[i];
      assert ms[..i + 1] == ms[..i] + [o];
      Seqs.SelectAppend(ms[..i], o, report);
      assert o in report <==> !o.selected && CentreOutside(r, o);
      if o.selected {
        foundSelected := true;
      } else if CentreOutside(r, o) {
        outside := outside + [o];
      }
      i := i + 1;
    }
    assert ms[..|ms|] == ms;
    assert !foundSelected <==> NoneSelected(ms);
    if |outside| == 0 && !foundSelected {
      var _ := Group.Rearrange(r);
    }
  }

  /** What checkMemberIntersect reports is exactly the unselected members
      centred outside: no selected member, and none of the others missed. */
  lemma ReportedExactly(r: Rect)
    ensures var out := Seqs.Select(r.members, Reported(r, r.members));
            (forall i :: 0 <= i < |out| ==> out[i] in r.members && !out[i].selected && CentreOutside(r, out[i])) &&
            (forall i :: 0 <= i < |r.members| && !r.members[i].selected && CentreOutside(r, r.members[i]) ==>
               r.members[i] in out)
  {
    var ms := r.members;
    var report := Reported(r, ms);
    var out := Seqs.Select(ms, report);
    forall i | 0 <= i < |out|
      ensures out[i] in ms && !out[i].selected && CentreOutside(r, out[i])
    {
      var k :| 0 <= k < |ms| && ms[k] == out[i];
    }
  }

  /** The members left after handleOutsideMembers: the ones that were not
      reported, in their order. */
  function Kept(r: Rect): seq<Rect>
    reads r, r.members
  {
    Seqs.Drop(r.members, Reported(r, r.members))
  }

  /** handleOutsideMembers: remove every reported member, one at a time
      and without a layout each; the rest keep their order and their
      substrings, and each removed member leaves the group with no
      substring. The runway is laid out once: by the check when nothing was
      outside and nothing selected, or afterwards when something was
      removed (and members are left). */
  method HandleOutsideMembers(r: Rect)
    requires r.kind == RunwayKind
    modifies r`members, r`rearranged, r.members`group, r.members`nameStart, r.members`nameEnd
    ensures r.members == old(Kept(r))
    ensures forall m :: m in old(r.members) && m !in r.members ==> Released(m)
    ensures forall m :: m in old(r.members) && m !in old(Reported(r, r.members)) ==>
              m.group == old(m.group) && m.nameStart == old(m.nameStart) && m.nameEnd == old(m.nameEnd)
    ensures var report := old(Reported(r, r.members));
            r.rearranged == old(r.rearranged) +
              (if |r.members| > 0 && (report != {} || old(NoneSelected(r.members))) then [r.members] else [])
  {
    ghost var ms := r.members;
    ghost var report := Reported(r, ms);
    ghost var quiet := NoneSelected(ms);
    var outside := CheckMemberIntersect(r);
    assert r.rearranged == old(r.rearranged) + (if |outside| == 0 && quiet && |ms| > 0 then [ms] else []);
    Seqs.SelectNonEmpty(ms, report);
    Seqs.RemoveSelected(ms, report);
    ReleaseOutside(r, outside, ms, report);
  }

  /** The part of handleOutsideMembers after the check: the listed members
      go, and when there were any the runway is laid out again. */
  method ReleaseOutside(r: Rect, outside: seq<Rect>, ghost ms: seq<Rect>, ghost report: set<Rect>)
    requires r.kind == RunwayKind && r.members == ms
    requires Seqs.RemoveEach(ms, outside) == Seqs.Drop(ms, report)
    requires forall i :: 0 <= i < |outside| ==> outside[i] in ms && outside[i] in report
    requires |outside| > 0 <==> report != {}
    modifies r`members, r`rearranged, ms`group, ms`nameStart, ms`nameEnd
    ensures r.members == Seqs.Drop(ms, report) && (report == {} ==> r.members == ms)
    ensures r.rearranged == old(r.rearranged) + (if report != {} && |r.members| > 0 then [r.members] else [])
    ensures forall m :: m in ms && m !in r.members ==> Released(m)
    ensures forall m :: m in ms && m !in report ==>
              m.group == old(m.group) && m.nameStart == old(m.nameStart) && m.nameEnd == old(m.nameEnd)
  {
    RemoveListed(r, outside, ms, report);
    if |outside| > 0 {
      var _ := Group.Rearrange(r);
    } else {
      assert outside == [] && r.members == ms;
    }
  }

  /** The loop of handleOutsideMembers: each listed member of ms, all of
      them in report, is removed in turn without a layout. */
  method RemoveListed(r: Rect, outside: seq<Rect>, ghost ms: seq<Rect>, ghost report: set<Rect>)
    requires r.kind == RunwayKind && r.members == ms
    requires Seqs.RemoveEach(ms, outside) == Seqs.Drop(ms, report)
    requires forall i :: 0 <= i < |outside| ==> outside[i] in ms && outside[i] in report
    modifies r`members, r`rearranged, ms`group, ms`nameStart, ms`nameEnd
    ensures r.members == Seqs.Drop(ms, report) && r.rearranged == old(r.rearranged)
    ensures forall m :: m in ms && m !in r.members ==> Released(m)
    ensures forall m :: m in ms && m !in report ==>
              m.group == old(m.group) && m.nameStart == old(m.nameStart) && m.nameEnd == old(m.nameEnd)
  {
    var i := 0;
    while i < |outside|
      invariant 0 <= i <= |outside|
      invariant Seqs.RemoveEach(r.members, outside[i..]) == Seqs.Drop(ms, report)
      invariant r.rearranged == old(r.rearranged)
      invariant forall m :: m in ms && m !in r.members ==> Released(m)
      invariant forall m :: m in ms && m !in report ==>
                  m.group == old(m.group) && m.nameStart == old(m.nameStart) && m.nameEnd == old(m.nameEnd)
    {
      Seqs.RemoveEachStep(r.members, outside, i);
      RemoveMember(r, outside[i], ms);
      i := i + 1;
    }
  }

  /** One removal of handleOutsideMembers: the first occurrence goes, and
      everything from ms no longer in the runway has been released. */
  method RemoveMember(r: Rect, o: Rect, ghost ms: seq<Rect>)
    requires r.kind == RunwayKind
    requires forall m :: m in ms && m !in r.members ==> Released(m)
    modifies r`members, r`rearranged, o`group, o`nameStart, o`nameEnd
    ensures r.members == Seqs.RemoveFirst(old(r.members), o) && r.rearranged == old(r.rearranged)
    ensures forall m :: m in ms && m !in r.members ==> Released(m)
  {
    ghost var before := r.members;
    Group.Remove(r, o, false);
    forall m | m in ms && m !in r.members
      ensures Released(m)
    {
      if m != o && m in before {
        Seqs.RemoveFirstKeepsOthers(before, o, m);
      }
    }
  }
}
