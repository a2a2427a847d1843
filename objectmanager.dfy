// The scene's object lists (src/ObjectManager.cpp): the drawing list whose
// order is the z-order (last drawn is on top), the selection, the video
// sources, the objects of the focused session, the site-ID groups keyed by
// site, and the queues of objects waiting for deletion and for the session
// tree. Layout calls only place objects, so they are not part of this
// model; which list an object ends up in is.
module Objects {
  import opened RectangleBase
  import Seqs
  import Group
  import Runway
  import VideoSource
  import Text

  /** The objects of a list that are not in a group and that the user may
      move, in list order (getMovableObjects). */
  function MovableSet(objs: seq<Rect>): set<Rect>
    reads objs`group, objs`userMovable
  {
    set m | m in objs && m.group == null && m.userMovable
  }

  function Movable(objs: seq<Rect>): seq<Rect>
    reads objs`group, objs`userMovable
  {
    Seqs.Select(objs, MovableSet(objs))
  }

  /** The movable objects are exactly the ungrouped, user-movable objects of
      the list: none is missing, none is extra, and there are no more than
      in the list. */
  lemma MovableExactly(objs: seq<Rect>)
    ensures var r := Movable(objs);
            |r| <= |objs| &&
            (forall i :: 0 <= i < |r| ==> r[i] in objs && r[i].group == null && r[i].userMovable) &&
            (forall i :: 0 <= i < |objs| && objs[i].group == null && objs[i].userMovable ==> objs[i] in r)
  {
    var r := Movable(objs);
    forall i | 0 <= i < |r|
      ensures r[i] in objs && r[i].group == null && r[i].userMovable
    {
      assert r[i] in MovableSet(objs);
    }
  }

  /** The movable objects that are not selected, in list order
      (getUnselectedObjects). */
  function UnselectedSet(objs: seq<Rect>): set<Rect>
    reads objs`selected
  {
    set m | m in objs && !m.selected
  }

  function Unselected(objs: seq<Rect>): (r: seq<Rect>)
    reads objs`group, objs`userMovable, objs`selected
    ensures |r| <= |objs|
    ensures forall i :: 0 <= i < |r| ==>
              r[i] in objs && r[i].group == null && r[i].userMovable && !r[i].selected
    ensures forall i :: 0 <= i < |objs| && objs[i].group == null && objs[i].userMovable && !objs[i].selected ==>
              objs[i] in r
  {
    var movable := Movable(objs);
    var r := Seqs.Select(movable, UnselectedSet(movable));
    assert forall i :: 0 <= i < |r| ==> r[i] in movable;
    r
  }

  /** A layout request: "grid" with the list under "objects", or
      "aspectFocus" with the lists under "inners" and "outers". Where the
      layout then puts the objects is not modelled. */
  datatype Arrangement =
    | Grid(objects: seq<Rect>)
    | AspectFocus(inners: seq<Rect>, outers: seq<Rect>)

  /** A movable object appended to a list is the last movable object: with
      automatic focus rotation the newest source is the inner one. */
  lemma NewestMovableLast(objs: seq<Rect>, s: Rect)
    requires s.group == null && s.userMovable
    ensures var mv := Movable(objs + [s]); |mv| > 0 && mv[|mv| - 1] == s
  {
    Seqs.SelectAppend(objs, s, MovableSet(objs + [s]));
  }

  /** Session focus splits the movable objects: each is an inner (focused)
      object or an outer one, and no focused object is also an outer one. */
  lemma FocusSplit(mv: seq<Rect>, focus: seq<Rect>)
    ensures var outers := Seqs.Drop(mv, Seqs.Elements(focus));
            (forall o :: o in outers ==> o in mv && o !in focus) &&
            (forall o :: o in mv ==> o in focus || o in outers)
  {
    Seqs.DropKeeps(mv, Seqs.Elements(focus));
    var outers := Seqs.Drop(mv, Seqs.Elements(focus));
    forall o | o in outers
      ensures o in mv && o !in focus
    {
      var k :| 0 <= k < |outers| && outers[k] == o;
    }
    forall o | o in mv
      ensures o in focus || o in outers
    {
      var k :| 0 <= k < |mv| && mv[k] == o;
    }
  }

  /** No group among these. */
  predicate NonGroups(objs: seq<Rect>)
    reads objs
  {
    forall i :: 0 <= i < |objs| ==> !objs[i].IsGroup()
  }

  /** The object moveToTop actually raises: with checkGrouping, the group
      of a grouped object (groups do not nest, so one step up is the top). */
  function TopOf(o: Rect, checkGrouping: bool): Rect
    reads o
  {
    if checkGrouping && o.group != null then o.group else o
  }

  /** The drawing order after raising top: top goes to the end, and when it
      is a group its members follow it one by one, so that they are drawn
      over it. An object that is not drawn changes nothing. */
  function MovedToTop(s: seq<Rect>, top: Rect): (r: seq<Rect>)
    reads top
    ensures multiset(r) == multiset(s)
    ensures top !in s ==> r == s
    ensures top in s && !top.IsGroup() ==> r == Seqs.RemoveFirst(s, top) + [top]
  {
    if top !in s then s
    else Seqs.ToTopEach(Seqs.ToTop(s, top), if top.IsGroup() then top.members else [])
  }

  /** holdCounter after one frame: it falls by two while the left button is
      up and it is positive; otherwise it climbs by one up to 24, so with the
      button up a count at or below zero climbs back towards one. */
  function NextHold(h: int, held: bool): (r: int)
    ensures -1 <= h <= 24 ==> -1 <= r <= 24
    ensures held && h < 24 ==> r == h + 1
    ensures held && h >= 24 ==> r == h
    ensures !held && h > 0 ==> r == h - 2
    ensures !held && h <= 0 ==> r == h + 1
  {
    if !held && h > 0 then h - 2 else if h < 24 then h + 1 else h
  }

  /** holdCounter after the given number of frames with the button held
      (or up) throughout. */
  function Hold(h: int, held: bool, frames: nat): int
    decreases frames
  {
    if frames == 0 then h else Hold(NextHold(h, held), held, frames - 1)
  }

  /** From any count in range, holding the button for 25 frames gives the
      full count. */
  lemma {:induction false} HoldClimbsToFull(h: int, frames: nat)
    requires -1 <= h <= 24 && frames >= 24 - h
    ensures Hold(h, true, frames) == 24
    decreases frames
  {
    if frames > 0 {
      if h < 24 {
        HoldClimbsToFull(h + 1, frames - 1);
      } else {
        HoldClimbsToFull(24, frames - 1);
      }
    }
  }

  /** The selection box is drawn only while holdCounter > 1: from any count
      in range, twelve or more frames with the button up bring the count to
      -1, 0 or 1, where it stays, so the box is no longer drawn. */
  lemma {:induction false} SelectionBoxFades(h: int, frames: nat)
    requires -1 <= h <= 24 && 2 * frames >= h - 1
    ensures -1 <= Hold(h, false, frames) <= 1
    decreases frames
  {
    if frames > 0 {
      SelectionBoxFades(NextHold(h, false), frames - 1);
    }
  }

  /** keys lists every key of m once, in the ascending string order that
      std::map iterates in. */
  predicate Enumerates<V>(keys: seq<string>, m: map<string, V>)
  {
    (forall j :: 0 <= j < |keys| ==> keys[j] in m) &&
    (forall k :: k in m ==> k in keys) &&
    (forall a, b :: 0 <= a < b < |keys| ==> keys[a] != keys[b]) &&
    Text.Ascending(keys)
  }

  /** The iteration order is a function of the map: two enumerations of the
      same map are the same sequence. */
  lemma EnumerationUnique<V>(k1: seq<string>, k2: seq<string>, m: map<string, V>)
    requires Enumerates(k1, m) && Enumerates(k2, m)
    ensures k1 == k2
  {
    Text.AscendingUnique(k1, k2);
  }

  /** No group is listed under two site IDs. */
  predicate Injective(m: map<string, Rect>)
  {
    forall k1, k2 :: k1 in m && k2 in m && k1 != k2 ==> m[k1] != m[k2]
  }

  /** The groups of m in the order of keys. */
  function GroupsInOrder(m: map<string, Rect>, keys: seq<string>): (gs: seq<Rect>)
    requires forall j :: 0 <= j < |keys| ==> keys[j] in m
    ensures |gs| == |keys|
    ensures forall j :: 0 <= j < |keys| ==> gs[j] == m[keys[j]]
  {
    seq(|keys|, j requires 0 <= j < |keys| => m[keys[j]])
  }

  /** Listed in key order, the groups of an injective map are distinct. */
  lemma GroupsInOrderDistinct(m: map<string, Rect>, keys: seq<string>)
    requires Enumerates(keys, m) && Injective(m)
    ensures var gs := GroupsInOrder(m, keys);
            forall a, b :: 0 <= a < b < |gs| ==> gs[a] != gs[b]
  {
  }

  /** The groups of a site-ID map, in key order, meet deleteGroup's needs:
      distinct, groups, listed in the map, selected only when in sel, and
      their members among the map's members. */
  lemma SiteGroupsReady(m: map<string, Rect>, keys: seq<string>, sel: seq<Rect>, gs: seq<Rect>, sels: seq<bool>,
                        ms: seq<seq<Rect>>)
    requires Enumerates(keys, m) && Injective(m)
    requires forall k :: k in m ==> m[k].IsGroup() && (m[k].selected ==> m[k] in sel)
    requires gs == GroupsInOrder(m, keys) && sels == Flags(gs) && ms == MembersOf(gs)
    ensures |sels| == |gs| == |ms|
    ensures forall a, b :: 0 <= a < b < |gs| ==> gs[a] != gs[b]
    ensures forall j :: 0 <= j < |gs| ==> gs[j] in m.Values
    ensures forall j :: 0 <= j < |gs| ==> gs[j].IsGroup() && gs[j].selected == sels[j]
    ensures forall j :: 0 <= j < |gs| && sels[j] ==> gs[j] in sel
    ensures forall j :: 0 <= j < |gs| ==> gs[j].members == ms[j]
    ensures forall j, x :: 0 <= j < |ms| && x in ms[j] ==> x in SiteMembers(m)
  {
    GroupsInOrderDistinct(m, keys);
  }

  /** Every member of a group listed in m. */
  function SiteMembers(m: map<string, Rect>): (r: set<Rect>)
    reads m.Values
    ensures forall k, x :: k in m && x in m[k].members ==> x in r
  {
    set k, x | k in m && x in m[k].members :: x
  }

  /** The selection flags of gs, in order. */
  function Flags(gs: seq<Rect>): (r: seq<bool>)
    reads gs`selected
    ensures |r| == |gs| && forall j :: 0 <= j < |gs| ==> r[j] == gs[j].selected
  {
    if |gs| == 0 then [] else Flags(gs[..|gs| - 1]) + [gs[|gs| - 1].selected]
  }

  /** The member lists of gs, in order. */
  function MembersOf(gs: seq<Rect>): (r: seq<seq<Rect>>)
    reads gs`members
    ensures |r| == |gs| && forall j :: 0 <= j < |gs| ==> r[j] == gs[j].members
  {
    if |gs| == 0 then [] else MembersOf(gs[..|gs| - 1]) + [gs[|gs| - 1].members]
  }

  /** The groups among gs whose flag is set, in order. */
  function Flagged(gs: seq<Rect>, sels: seq<bool>): seq<Rect>
    requires |sels| == |gs|
  {
    if |gs| == 0 then []
    else Flagged(gs[..|gs| - 1], sels[..|gs| - 1]) + (if sels[|gs| - 1] then [gs[|gs| - 1]] else [])
  }

  /** The lists that deleting a group changes. */
  datatype Lists = Lists(drawn: seq<Rect>, focus: seq<Rect>, selection: seq<Rect>,
                         toDelete: seq<Rect>, toRemoveFromTree: seq<Rect>)

  /** removeFromLists' effect: o leaves the drawing and focus lists, and
      the selection when flagged sel; it is queued for removal from the
      tree when tree holds. */
  function Unlisted(l: Lists, o: Rect, sel: bool, tree: bool): Lists
  {
    Lists(Seqs.RemoveFirst(l.drawn, o), Seqs.RemoveFirst(l.focus, o),
          if sel then Seqs.RemoveFirst(l.selection, o) else l.selection,
          l.toDelete, l.toRemoveFromTree + (if tree then [o] else []))
  }

  /** deleteGroup's effect on the lists, for a group whose selection flag
      is sel, with or without a session tree: unlisted, then queued for
      deletion. */
  function DeleteOne(l: Lists, g: Rect, sel: bool, tree: bool): Lists
  {
    var u := Unlisted(l, g, sel, tree);
    u.(toDelete := u.toDelete + [g])
  }

  /** The lists after deleting the first n groups of gs (with selection
      flags sels) one after the other. */
  function DeleteFirst(l: Lists, gs: seq<Rect>, sels: seq<bool>, n: nat, tree: bool): Lists
    requires |sels| == |gs| && n <= |gs|
  {
    if n == 0 then l
    else DeleteOne(DeleteFirst(l, gs, sels, n - 1, tree), gs[n - 1], sels[n - 1], tree)
  }

  /** Deleting one more group is one more DeleteOne. */
  lemma DeleteFirstStep(l: Lists, gs: seq<Rect>, sels: seq<bool>, n: nat, tree: bool)
    requires |sels| == |gs| && n < |gs|
    ensures DeleteFirst(l, gs, sels, n + 1, tree) == DeleteOne(DeleteFirst(l, gs, sels, n, tree), gs[n], sels[n], tree)
  {
  }

  /** Flagged over one more element of a prefix. */
  lemma FlaggedPrefix(gs: seq<Rect>, sels: seq<bool>, i: int)
    requires |sels| == |gs| && 0 <= i < |gs|
    ensures Flagged(gs[..i + 1], sels[..i + 1]) == Flagged(gs[..i], sels[..i]) + (if sels[i] then [gs[i]] else [])
  {
    assert gs[..i + 1][..i] == gs[..i];
    assert sels[..i + 1][..i] == sels[..i];
  }

  /** What deleting the first n groups amounts to: each leaves the drawing
      and focus lists, the flagged ones leave the selection, and all are
      queued for deletion and, with a tree, for removal from it, in order. */
  lemma {:induction false} DeleteFirstRemovesEach(l: Lists, gs: seq<Rect>, sels: seq<bool>, n: nat, tree: bool)
    requires |sels| == |gs| && n <= |gs|
    ensures DeleteFirst(l, gs, sels, n, tree) ==
            Lists(Seqs.RemoveEach(l.drawn, gs[..n]), Seqs.RemoveEach(l.focus, gs[..n]),
                  Seqs.RemoveEach(l.selection, Flagged(gs[..n], sels[..n])),
                  l.toDelete + gs[..n], l.toRemoveFromTree + (if tree then gs[..n] else []))
    decreases n
  {
    if n == 0 {
      assert l.toDelete + gs[..0] == l.toDelete;
      assert l.toRemoveFromTree + [] == l.toRemoveFromTree;
    } else {
      var i := n - 1;
      var prev := DeleteFirst(l, gs, sels, i, tree);
      DeleteFirstRemovesEach(l, gs, sels, i, tree);
      var d := DeleteOne(prev, gs[i], sels[i], tree);
      assert DeleteFirst(l, gs, sels, n, tree) == d;
      Seqs.RemoveEachPrefix(l.drawn, gs, i);
      assert d.drawn == Seqs.RemoveEach(l.drawn, gs[..n]);
      Seqs.RemoveEachPrefix(l.focus, gs, i);
      assert d.focus == Seqs.RemoveEach(l.focus, gs[..n]);
      var fl := Flagged(gs[..i], sels[..i]);
      FlaggedPrefix(gs, sels, i);
      if sels[i] {
        Seqs.RemoveEachSnoc(l.selection, fl, gs[i]);
      } else {
        assert fl + [] == fl;
      }
      assert d.selection == Seqs.RemoveEach(l.selection, Flagged(gs[..n], sels[..n]));
      Seqs.AppendPrefix(l.toDelete, gs, i);
      assert d.toDelete == l.toDelete + gs[..n];
      Seqs.AppendPrefix(l.toRemoveFromTree, gs, i);
      assert d.toRemoveFromTree == l.toRemoveFromTree + (if tree then gs[..n] else []);
    }
  }

  /** Deleting all of gs, in the terms of the lists themselves. */
  function DeleteAll(l: Lists, gs: seq<Rect>, sels: seq<bool>, tree: bool): (r: Lists)
    requires |sels| == |gs|
    ensures r == DeleteFirst(l, gs, sels, |gs|, tree)
  {
    DeleteFirstRemovesEach(l, gs, sels, |gs|, tree);
    assert gs[..|gs|] == gs && sels[..|gs|] == sels;
    Lists(Seqs.RemoveEach(l.drawn, gs), Seqs.RemoveEach(l.focus, gs),
          Seqs.RemoveEach(l.selection, Flagged(gs, sels)),
          l.toDelete + gs, l.toRemoveFromTree + (if tree then gs else []))
  }

  /** What removeAll leaves: g has no members, and each of its former
      members ms has left it. */
  predicate Dissolved(g: Rect, ms: seq<Rect>)
    reads g, ms
  {
    g.members == [] && forall k :: 0 <= k < |ms| ==> Released(ms[k])
  }

  /** Removing g from a list keeps every other listed object in it. */
  lemma StillListed(gs: seq<Rect>, sels: seq<bool>, i: int, sel: seq<Rect>)
    requires |sels| == |gs| && 0 <= i < |gs|
    requires forall j :: i <= j < |gs| && sels[j] ==> gs[j] in sel
    requires forall j :: i < j < |gs| ==> gs[j] != gs[i]
    ensures forall j :: i < j < |gs| && sels[j] ==> gs[j] in Seqs.RemoveFirst(sel, gs[i])
  {
    forall j | i < j < |gs| && sels[j]
      ensures gs[j] in Seqs.RemoveFirst(sel, gs[i])
    {
      Seqs.RemoveFirstKeepsOthers(sel, gs[i], gs[j]);
    }
  }

  class ObjectManager {
    var drawnObjects: seq<Rect>
    var selectedObjects: seq<Rect>
    var sources: seq<Rect>
    var sessionFocusObjs: seq<Rect>
    var siteIDGroups: map<string, Rect>
    var objectsToDelete: seq<Rect>
    var objectsToAddToTree: seq<Rect>
    var objectsToRemoveFromTree: seq<Rect>
    /** Whether the session tree has been set. */
    var hasTree: bool
    const runway: Rect

    var useRunway: bool
    var gridAuto: bool
    var autoFocusRotate: bool
    var sessionFocus: bool
    var focusSession: string
    var thumbnailMap: map<string, string>
    var enableSiteIDGroups: bool

    var holdCounter: int
    var drawCounter: int
    var intersectCounter: int
    var autoCounter: int

    /** The layout requests made so far, oldest first. */
    ghost var arrangements: seq<Arrangement>
    /** The objects freed by the delayed delete so far, in order. */
    ghost var freed: seq<Rect>

    /** The frame counters' ranges, which draw keeps. */
    predicate CountersInRange()
      reads this
    {
      -1 <= holdCounter <= 24 && 0 <= drawCounter < 30 && 0 <= intersectCounter < 20 && 0 <= autoCounter < 900
    }

    /** The runway is a runway and not its own member. */
    predicate RunwayReady()
      reads runway`kind, runway`members
    {
      runway.kind == RunwayKind && runway !in runway.members
    }

    /** The lists removing an object changes, as they are now. */
    function Snapshot(): Lists
      reads this`drawnObjects, this`sessionFocusObjs, this`selectedObjects, this`objectsToDelete
      reads this`objectsToRemoveFromTree
    {
      Lists(drawnObjects, sessionFocusObjs, selectedObjects, objectsToDelete, objectsToRemoveFromTree)
    }

    /** ObjectManager(): empty lists but for the runway, which is drawn,
        counters at zero, runway on, automatic modes off. Whether site-ID
        grouping starts on is not set by the constructor; it is a parameter
        here. */
    constructor (siteGrouping: bool)
      ensures fresh(runway) && RunwayReady() && runway.members == []
      ensures drawnObjects == [runway] && selectedObjects == [] && sources == []
      ensures sessionFocusObjs == [] && siteIDGroups == map[] && objectsToDelete == []
      ensures objectsToAddToTree == [] && objectsToRemoveFromTree == [] && !hasTree
      ensures useRunway && !gridAuto && !autoFocusRotate && !sessionFocus && focusSession == ""
      ensures enableSiteIDGroups == siteGrouping
      ensures holdCounter == 0 && drawCounter == 0 && intersectCounter == 0 && autoCounter == 0
      ensures CountersInRange() && arrangements == [] && freed == []
    {
      var r := Runway.NewRunway(-10.0, 0.0);
      r.SetScale(2.0, 10.0);
      runway := r;
      drawnObjects := [r];
      selectedObjects, sources, sessionFocusObjs := [], [], [];
      siteIDGroups := map[];
      objectsToDelete, objectsToAddToTree, objectsToRemoveFromTree := [], [], [];
      hasTree := false;
      useRunway, gridAuto, autoFocusRotate, sessionFocus := true, false, false, false;
      focusSession := "";
      thumbnailMap := map[];
      enableSiteIDGroups := siteGrouping;
      holdCounter, drawCounter, intersectCounter, autoCounter := 0, 0, 0, 0;
      arrangements, freed := [], [];
    }

    // ---- z-order ----

    /** moveToTop(object, false) of an object that is not a group. */
    method RaiseObject(m: Rect)
      requires !m.IsGroup()
      modifies this`drawnObjects
      ensures drawnObjects == Seqs.ToTop(old(drawnObjects), m)
    {
      var i := Seqs.Position(drawnObjects, m);
      if i < |drawnObjects| {
        drawnObjects := drawnObjects[..i] + drawnObjects[i + 1..] + [m];
      }
    }

    /** moveToTop(iterator): erase the entry, push it to the back and, for a
        group, raise each member in member order. */
    method RaiseAt(i: nat)
      requires i < |drawnObjects| && i == Seqs.IndexOf(drawnObjects, drawnObjects[i])
      requires drawnObjects[i].IsGroup() ==> NonGroups(drawnObjects[i].members)
      modifies this`drawnObjects
      ensures drawnObjects == MovedToTop(old(drawnObjects), old(drawnObjects[i]))
    {
      var t := drawnObjects[i];
      assert Seqs.RemoveFirst(drawnObjects, t) == drawnObjects[..i] + drawnObjects[i + 1..];
      drawnObjects := drawnObjects[..i] + drawnObjects[i + 1..] + [t];
      assert t in old(drawnObjects) && drawnObjects == Seqs.ToTop(old(drawnObjects), t);
      if t.IsGroup() {
        RaiseMembers(t);
      } else {
        assert drawnObjects == Seqs.ToTopEach(Seqs.ToTop(old(drawnObjects), t), []);
      }
    }

    /** The member loop of moveToTop for a group: each member in turn. */
    method RaiseMembers(t: Rect)
      requires NonGroups(t.members)
      modifies this`drawnObjects
      ensures drawnObjects == Seqs.ToTopEach(old(drawnObjects), t.members)
    {
      var k := 0;
      while k < |t.members|
        invariant 0 <= k <= |t.members|
        invariant drawnObjects == Seqs.ToTopEach(old(drawnObjects), t.members[..k])
      {
        assert t.members[..k + 1][..k] == t.members[..k];
        RaiseObject(t.members[k]);
        k := k + 1;
      }
      assert t.members[..|t.members|] == t.members;
    }

    /** moveToTop(object, checkGrouping): an object that is not drawn
        changes nothing; otherwise its top group (with checkGrouping) or the
        object itself is raised. */
    method MoveToTop(o: Rect, checkGrouping: bool)
      requires checkGrouping && o.group != null ==> o.group.group == null
      requires TopOf(o, checkGrouping).IsGroup() ==> NonGroups(TopOf(o, checkGrouping).members)
      modifies this`drawnObjects
      ensures drawnObjects ==
              if o in old(drawnObjects) then MovedToTop(old(drawnObjects), TopOf(o, checkGrouping))
              else old(drawnObjects)
    {
      var i := Seqs.Position(drawnObjects, o);
      if i == |drawnObjects| {
        return;
      }
      var top := TopOf(o, checkGrouping);
      if top != o {
        var j := Seqs.Position(drawnObjects, top);
        if j < |drawnObjects| {
          RaiseAt(j);
        }
      } else {
        RaiseAt(i);
      }
    }

    // ---- list queries ----

    /** getMovableObjects. */
    method GetMovableObjects() returns (objects: seq<Rect>)
      ensures objects == Movable(drawnObjects)
    {
      ghost var S := MovableSet(drawnObjects);
      objects := [];
      var i := 0;
      while i < |drawnObjects|
        invariant 0 <= i <= |drawnObjects|
        invariant objects == Seqs.Select(drawnObjects[..i], S)
      {
        var o := drawnObjects[i];
        Seqs.SelectPrefix(drawnObjects, S, i);
        assert o in S <==> o.group == null && o.userMovable;
        if o.group == null && o.userMovable {
          objects := objects + [o];
        }
        i := i + 1;
      }
      assert drawnObjects[..i] == drawnObjects;
    }

    /** getUnselectedObjects. */
    method GetUnselectedObjects() returns (unselected: seq<Rect>)
      ensures unselected == Unselected(drawnObjects)
    {
      var movable := GetMovableObjects();
      ghost var S := UnselectedSet(movable);
      unselected := [];
      var i := 0;
      while i < |movable|
        invariant 0 <= i <= |movable|
        invariant unselected == Seqs.Select(movable[..i], S)
      {
        var o := movable[i];
        Seqs.SelectPrefix(movable, S, i);
        assert o in S <==> !o.selected;
        if !o.selected {
          unselected := unselected + [o];
        }
        i := i + 1;
      }
      assert movable[..i] == movable;
    }

    // ---- list updates ----

    /** clearSelected: every listed object is unflagged (and shows its base
        colour again) and the list is emptied. */
    method ClearSelected()
      modifies this`selectedObjects, selectedObjects`selected, selectedObjects`destBColor
      modifies selectedObjects`borderColor, selectedObjects`borderColAnimating
      ensures selectedObjects == []
      ensures forall m :: m in old(selectedObjects) ==> SelectedAs(m, false)
    {
      var i := 0;
      while i < |selectedObjects|
        invariant 0 <= i <= |selectedObjects| && selectedObjects == old(selectedObjects)
        invariant forall j :: 0 <= j < |selectedObjects| ==> ColourKept(selectedObjects[j])
        invariant forall j :: 0 <= j < i ==> SelectedAs(selectedObjects[j], false)
      {
        selectedObjects[i].SetSelect(false);
        i := i + 1;
      }
      selectedObjects := [];
    }

    /** removeFromLists(obj, treeRemove): the first occurrence leaves the
        drawing list and the focused-session list when present, and the
        selection when obj is flagged selected (which the source assumes
        puts it in the selection); the tree removal is queued when there is
        a tree. */
    method RemoveFromLists(obj: Rect, treeRemove: bool)
      requires obj.selected ==> obj in selectedObjects
      modifies this`drawnObjects, this`sessionFocusObjs, this`selectedObjects, this`objectsToRemoveFromTree
      ensures drawnObjects == Seqs.RemoveFirst(old(drawnObjects), obj)
      ensures sessionFocusObjs == Seqs.RemoveFirst(old(sessionFocusObjs), obj)
      ensures selectedObjects == if obj.selected then Seqs.RemoveFirst(old(selectedObjects), obj)
                                 else old(selectedObjects)
      ensures objectsToDelete == old(objectsToDelete)
      ensures objectsToRemoveFromTree == old(objectsToRemoveFromTree) + (if hasTree && treeRemove then [obj] else [])
    {
      if hasTree && treeRemove {
        objectsToRemoveFromTree := objectsToRemoveFromTree + [obj];
      }
      drawnObjects := Seqs.Erase(drawnObjects, obj);
      sessionFocusObjs := Seqs.Erase(sessionFocusObjs, obj);
      if obj.selected {
        selectedObjects := Seqs.Erase(selectedObjects, obj);
      }
    }

    /** addNewSource(s): nothing for a null source. Otherwise the source is
        listed and drawn, renamed from its SDES items (VideoSource.UpdateName,
        with the items as parameters), queued for the tree, and then placed. */
    method AddNewSource(s: Rect?, sessionAddress: string, sourceCount: int,
                        sdesName: string, sdesCname: string, loc: string, strtod: string -> real)
      requires s != null ==> s.kind == VideoKind
      requires s != null && autoFocusRotate ==> |Movable(drawnObjects + [s])| > 0
      requires RunwayReady()
      modifies this`sources, this`drawnObjects, this`objectsToAddToTree, this`sessionFocusObjs, this`arrangements
      modifies runway`members, runway`name, runway`finalName, runway`rearranged
      modifies runway.members`nameStart, runway.members`nameEnd
      modifies {s}`group, {s}`nameStart, {s}`nameEnd, {s}`name, {s}`altName, {s}`finalName, {s}`lat, {s}`lon
      ensures s == null ==> unchanged(this) && unchanged(runway)
      ensures s != null ==> Enlisted(s, old(sources), old(drawnObjects), old(objectsToAddToTree), old(NamingOf(s)),
                                     old(s.lat), old(s.lon), sdesName, sdesCname, loc, strtod)
      ensures s != null ==> Placed(s, sessionAddress, sourceCount, old(sessionFocusObjs), old(arrangements),
                                   old(runway.members), old(runway.rearranged))
      ensures s == null || autoFocusRotate || gridAuto || sessionFocus || !useRunway || sourceCount <= 9 ==>
                runway.members == old(runway.members) && runway.name == old(runway.name) &&
                runway.rearranged == old(runway.rearranged)
      ensures s != null ==> sources == old(sources) + [s] && drawnObjects == old(drawnObjects) + [s]
      ensures RunwayReady()
    {
      if s != null {
        AddSource(s, sessionAddress, sourceCount, sdesName, sdesCname, loc, strtod);
      }
    }

    /** addNewSource for a source that is there. */
    method AddSource(s: Rect, sessionAddress: string, sourceCount: int,
                     sdesName: string, sdesCname: string, loc: string, strtod: string -> real)
      requires s.kind == VideoKind && RunwayReady()
      requires autoFocusRotate ==> |Movable(drawnObjects + [s])| > 0
      modifies this`sources, this`drawnObjects, this`objectsToAddToTree, this`sessionFocusObjs, this`arrangements
      modifies runway`members, runway`name, runway`finalName, runway`rearranged
      modifies runway.members`nameStart, runway.members`nameEnd
      modifies s`group, s`nameStart, s`nameEnd, s`name, s`altName, s`finalName, s`lat, s`lon
      ensures Enlisted(s, old(sources), old(drawnObjects), old(objectsToAddToTree), old(NamingOf(s)),
                       old(s.lat), old(s.lon), sdesName, sdesCname, loc, strtod)
      ensures Placed(s, sessionAddress, sourceCount, old(sessionFocusObjs), old(arrangements),
                     old(runway.members), old(runway.rearranged))
      ensures autoFocusRotate || gridAuto || sessionFocus || !useRunway || sourceCount <= 9 ==>
                runway.members == old(runway.members) && runway.name == old(runway.name) &&
                runway.rearranged == old(runway.rearranged)
      ensures RunwayReady()
    {
      ghost var focus0, log0, members0, laid0 := sessionFocusObjs, arrangements, runway.members, runway.rearranged;
      Enlist(s, sdesName, sdesCname, loc, strtod);
      assert focus0 == sessionFocusObjs && log0 == arrangements;
      assert members0 == runway.members && laid0 == runway.rearranged;
      Place(s, sessionAddress, sourceCount);
    }

    /** The part of addNewSource before placement: s is listed, drawn,
        renamed and queued for the tree. */
    method Enlist(s: Rect, sdesName: string, sdesCname: string, loc: string, strtod: string -> real)
      requires s.kind == VideoKind
      modifies this`sources, this`drawnObjects, this`objectsToAddToTree
      modifies s`name, s`altName, s`finalName, s`lat, s`lon
      ensures Enlisted(s, old(sources), old(drawnObjects), old(objectsToAddToTree), old(NamingOf(s)),
                       old(s.lat), old(s.lon), sdesName, sdesCname, loc, strtod)
      ensures drawnObjects == old(drawnObjects) + [s]
      ensures Movable(drawnObjects) == old(Movable(drawnObjects + [s]))
    {
      sources := sources + [s];
      drawnObjects := drawnObjects + [s];
      ghost var movable := Movable(drawnObjects);
      var _ := VideoSource.UpdateName(s, sdesName, sdesCname, loc, strtod);
      assert Movable(drawnObjects) == movable;
      assert NamingOf(s) == VideoSource.ApplySdes(old(NamingOf(s)), sdesName, sdesCname).0;
      assert (s.lat, s.lon) == match VideoSource.SplitLocation(loc)
                               case None => (old(s.lat), old(s.lon))
                               case Some((la, lo)) => (strtod(la), strtod(lo));
      if hasTree {
        objectsToAddToTree := objectsToAddToTree + [s];
      }
      assert sources == old(sources) + [s];
      assert objectsToAddToTree == old(objectsToAddToTree) + (if hasTree then [s] else []);
    }

    /** What addNewSource does before placing s, against the lists, naming
        and position as they were: s is appended to the sources and the
        drawing list and, when there is a tree, to the tree queue; its names
        are what the SDES NAME and CNAME items make of them; its coordinates
        are the two halves of a LOC item with a comma, read by strtod, and
        are kept otherwise. */
    ghost predicate Enlisted(s: Rect, sources0: seq<Rect>, drawn0: seq<Rect>, tree0: seq<Rect>,
                             naming0: VideoSource.Naming, lat0: real, lon0: real,
                             sdesName: string, sdesCname: string, loc: string, strtod: string -> real)
      reads this`sources, this`drawnObjects, this`objectsToAddToTree, this`hasTree
      reads s`name, s`altName, s`finalName, s`lat, s`lon
    {
      EnlistState(s) ==
        (sources0 + [s], drawn0 + [s], tree0 + (if hasTree then [s] else []),
         VideoSource.ApplySdes(naming0, sdesName, sdesCname).0,
         match VideoSource.SplitLocation(loc)
         case None => (lat0, lon0)
         case Some((la, lo)) => (strtod(la), strtod(lo)))
    }

    /** The lists addNewSource appends s to, and s's naming and position. */
    ghost function EnlistState(s: Rect): (seq<Rect>, seq<Rect>, seq<Rect>, VideoSource.Naming, (real, real))
      reads this`sources, this`drawnObjects, this`objectsToAddToTree
      reads s`name, s`altName, s`finalName, s`lat, s`lon
    {
      (sources, drawnObjects, objectsToAddToTree, NamingOf(s), (s.lat, s.lon))
    }

    /** The naming state of a source. */
    function NamingOf(s: Rect): VideoSource.Naming
      reads s`name, s`altName, s`finalName
    {
      VideoSource.Naming(s.name, s.altName, s.finalName)
    }

    /** Where addNewSource leaves a new drawn source s, against the focus
        list, layout log and runway as they were: automatic focus rotation
        asks for aspectFocus with the last movable object inside and the
        rest outside; otherwise the automatic grid asks for a grid of the
        movable objects; otherwise session focus adds s to the focus list
        when its session's address is the focused one and asks for
        aspectFocus with the focus list inside and every other movable
        object outside; otherwise s joins the runway when the runway is used
        and there are more than nine sources. */
    ghost predicate Placed(s: Rect, sessionAddress: string, sourceCount: int, focus0: seq<Rect>,
                           log0: seq<Arrangement>, members0: seq<Rect>, laid0: seq<seq<Rect>>)
      reads this, drawnObjects, runway, s
    {
      var mv := Movable(drawnObjects);
      var focusing := !autoFocusRotate && !gridAuto && sessionFocus;
      var joins := !autoFocusRotate && !gridAuto && !sessionFocus && useRunway && sourceCount > 9;
      sessionFocusObjs == focus0 + (if focusing && sessionAddress == focusSession then [s] else []) &&
      arrangements == log0 +
        (if autoFocusRotate then
           (if |mv| > 0 then [AspectFocus(mv[|mv| - 1..], mv[..|mv| - 1])]
            else [])
         else if gridAuto then [Grid(mv)]
         else if focusing then
           [AspectFocus(sessionFocusObjs, Seqs.Drop(mv, Seqs.Elements(sessionFocusObjs)))]
         else []) &&
      (joins ==> runway.members == members0 + [s] && s.group == runway && runway.rearranged == laid0 + [runway.members])
    }

    /** The placement branch of addNewSource for a source already drawn. */
    method Place(s: Rect, sessionAddress: string, sourceCount: int)
      requires s.kind == VideoKind && RunwayReady()
      requires autoFocusRotate ==> |Movable(drawnObjects)| > 0
      modifies this`sessionFocusObjs, this`arrangements
      modifies runway`members, runway`name, runway`finalName, runway`rearranged
      modifies runway.members`nameStart, runway.members`nameEnd, s`group, s`nameStart, s`nameEnd
      ensures Placed(s, sessionAddress, sourceCount, old(sessionFocusObjs), old(arrangements),
                     old(runway.members), old(runway.rearranged))
      ensures autoFocusRotate || gridAuto || sessionFocus || !useRunway || sourceCount <= 9 ==>
                runway.members == old(runway.members) && runway.name == old(runway.name) &&
                runway.rearranged == old(runway.rearranged) && s.group == old(s.group)
      ensures RunwayReady()
      ensures EnlistState(s) == old(EnlistState(s))
    {
      if autoFocusRotate {
        ArrangeRotation();
      } else if gridAuto {
        ArrangeGrid();
      } else if sessionFocus {
        if sessionAddress == focusSession {
          sessionFocusObjs := sessionFocusObjs + [s];
        }
        ArrangeSessionFocus();
      } else if useRunway && sourceCount > 9 {
        JoinRunway(s);
      }
    }

    /** A source joins the runway, which lays its members out again. */
    method JoinRunway(s: Rect)
      requires s.kind == VideoKind && RunwayReady()
      modifies runway`members, runway`name, runway`finalName, runway`rearranged
      modifies runway.members`nameStart, runway.members`nameEnd, s`group, s`nameStart, s`nameEnd
      ensures runway.members == old(runway.members) + [s] && s.group == runway
      ensures runway.rearranged == old(runway.rearranged) + [runway.members]
      ensures RunwayReady()
    {
      Group.Add(runway, s);
    }

    /** Automatic focus rotation: the last movable object inside, the rest
        outside. */
    method ArrangeRotation()
      requires |Movable(drawnObjects)| > 0
      modifies this`arrangements
      ensures var mv := Movable(drawnObjects);
              arrangements == old(arrangements) +
                [AspectFocus(mv[|mv| - 1..], mv[..|mv| - 1])]
    {
      var outers := GetMovableObjects();
      var inner := outers[|outers| - 1..];
      outers := outers[..|outers| - 1];
      arrangements := arrangements + [AspectFocus(inner, outers)];
    }

    /** The automatic grid: every movable object. */
    method ArrangeGrid()
      modifies this`arrangements
      ensures arrangements == old(arrangements) + [Grid(Movable(drawnObjects))]
    {
      var objects := GetMovableObjects();
      arrangements := arrangements + [Grid(objects)];
    }

    /** Session focus: the focus list inside, every movable object not in
        it outside. */
    method ArrangeSessionFocus()
      modifies this`arrangements
      ensures arrangements == old(arrangements) +
                [AspectFocus(sessionFocusObjs, Seqs.Drop(Movable(drawnObjects), Seqs.Elements(sessionFocusObjs)))]
    {
      var movable := GetMovableObjects();
      var outers := Seqs.EraseEach(movable, sessionFocusObjs);
      arrangements := arrangements + [AspectFocus(sessionFocusObjs, outers)];
    }

    /** A group that a deleted source leaves empty and that is an automatic
        site-ID group (it has a site ID). */
    predicate Emptied(g: Rect?, s: Rect)
      reads g
    {
      g != null && g.siteID != "" && Seqs.RemoveFirst(g.members, s) == []
    }

    /** What deleteSource assumes of the source at i: a selected source is
        in the selection, its group is a group, and a site-ID group it
        empties is listed under its site ID (with the same assumption about
        its selection). */
    predicate CanDelete(i: int)
      reads this, sources, set k | 0 <= k < |sources| && sources[k].group != null :: sources[k].group
    {
      0 <= i < |sources| &&
      var s := sources[i];
      (s.selected ==> s in selectedObjects) &&
      (s.group != null ==> s.group.IsGroup() && s.group != s) &&
      (Emptied(s.group, s) ==> s.group.siteID in siteIDGroups && (s.group.selected ==> s.group in selectedObjects))
    }

    /** deleteSource(i): the source leaves every list, its group and the
        sources list, and is queued for deletion; a site-ID group it leaves
        empty leaves the lists and the site-ID map and is queued before it. */
    method DeleteSource(i: nat)
      requires CanDelete(i)
      modifies this`drawnObjects, this`sessionFocusObjs, this`selectedObjects, this`objectsToRemoveFromTree
      modifies this`sources, this`siteIDGroups, this`objectsToDelete
      modifies {sources[i]}`group, {sources[i]}`nameStart, {sources[i]}`nameEnd
      modifies {sources[i].group}`members, {sources[i].group}`rearranged
      modifies this`arrangements
      ensures sources == Seqs.RemoveAt(old(sources), i)
      ensures arrangements == old(arrangements) + (if gridAuto then [Grid(Movable(drawnObjects))] else [])
      ensures Retired(i, old(sources), old(Snapshot()), old(siteIDGroups), old(sources[i].selected),
                      old(sources[i].group), old(Emptied(sources[i].group, sources[i])),
                      old(if sources[i].group == null then false else sources[i].group.selected),
                      old(if sources[i].group == null then [] else sources[i].group.members),
                      old(if sources[i].group == null then [] else sources[i].group.rearranged))
    {
      ghost var s0, l0, ids0 := sources, Snapshot(), siteIDGroups;
      ghost var s: Rect := sources[i];
      ghost var g: Rect? := s.group;
      ghost var sel, gone := s.selected, Emptied(g, s);
      ghost var gsel := if g == null then false else g.selected;
      ghost var gm: seq<Rect> := if g == null then [] else g.members;
      ghost var gr: seq<seq<Rect>> := if g == null then [] else g.rearranged;
      RetireSource(i);
      assert Retired(i, s0, l0, ids0, sel, g, gone, gsel, gm, gr);
      if gridAuto {
        ArrangeGrid();
      }
    }

    /** What deleteSource does before its grid layout, against the sources,
        lists, site-ID map, the source's selection flag and group, whether
        the group is emptied, and the group's selection flag, members and
        layouts as they were. */
    ghost predicate Retired(i: nat, sources0: seq<Rect>, l0: Lists, ids0: map<string, Rect>, sel: bool, g: Rect?,
                            gone: bool, gsel: bool, members0: seq<Rect>, laid0: seq<seq<Rect>>)
      requires i < |sources0|
      reads this`sources, this`drawnObjects, this`sessionFocusObjs, this`selectedObjects, this`objectsToDelete
      reads this`objectsToRemoveFromTree, this`siteIDGroups, this`hasTree
      reads sources0`group, sources0`nameStart, sources0`nameEnd
      reads (if g == null then {} else {g})`members, (if g == null then {} else {g})`rearranged
      reads (if g == null then {} else {g})`siteID
    {
      var s := sources0[i];
      var l := Unlisted(l0, s, sel, hasTree);
      var l' := if gone && g != null then DeleteOne(l, g, gsel, hasTree) else l;
      sources == Seqs.RemoveAt(sources0, i) &&
      Snapshot() == l'.(toDelete := l'.toDelete + [s]) &&
      siteIDGroups == (if gone && g != null then ids0 - {g.siteID} else ids0) &&
      (g != null ==> g.members == Seqs.RemoveFirst(members0, s)) &&
      (g != null ==> g.rearranged == laid0 + (if s in members0 && |g.members| > 0 then [g.members] else [])) &&
      (g != null && s in members0 ==> s.group == null && s.nameStart == -1 && s.nameEnd == -1)
    }

    /** deleteSource up to its grid layout. */
    method RetireSource(i: nat)
      requires CanDelete(i)
      modifies this`drawnObjects, this`sessionFocusObjs, this`selectedObjects, this`objectsToRemoveFromTree
      modifies this`sources, this`siteIDGroups, this`objectsToDelete
      modifies {sources[i]}`group, {sources[i]}`nameStart, {sources[i]}`nameEnd
      modifies {sources[i].group}`members, {sources[i].group}`rearranged
      ensures Retired(i, old(sources), old(Snapshot()), old(siteIDGroups), old(sources[i].selected),
                      old(sources[i].group), old(Emptied(sources[i].group, sources[i])),
                      old(if sources[i].group == null then false else sources[i].group.selected),
                      old(if sources[i].group == null then [] else sources[i].group.members),
                      old(if sources[i].group == null then [] else sources[i].group.rearranged))
    {
      var s := sources[i];
      Withdraw(i);
      if s.group != null && s.group.selected && Emptied(s.group, s) {
        Seqs.RemoveFirstKeepsOthers(old(selectedObjects), s, s.group);
      }
      LeaveGroup(s);
      objectsToDelete := objectsToDelete + [s];
    }

    /** The part of deleteSource that takes the source at i off the lists
        and out of the sources. */
    method Withdraw(i: nat)
      requires i < |sources| && (sources[i].selected ==> sources[i] in selectedObjects)
      modifies this`drawnObjects, this`sessionFocusObjs, this`selectedObjects, this`objectsToRemoveFromTree
      modifies this`sources
      ensures (sources, Snapshot()) ==
              (Seqs.RemoveAt(old(sources), i), Unlisted(old(Snapshot()), old(sources[i]), old(sources[i].selected), hasTree))
    {
      var s := sources[i];
      RemoveFromLists(s, true);
      sources := Seqs.RemoveAt(sources, i);
    }

    /** The part of deleteSource after the source has left the lists: it
        leaves its group, and an emptied site-ID group is retired. */
    method LeaveGroup(s: Rect)
      requires s.group != null ==> s.group.IsGroup() && s.group != s
      requires Emptied(s.group, s) ==> s.group.siteID in siteIDGroups && (s.group.selected ==> s.group in selectedObjects)
      modifies this`drawnObjects, this`sessionFocusObjs, this`selectedObjects, this`objectsToRemoveFromTree
      modifies this`siteIDGroups, this`objectsToDelete
      modifies s`group, s`nameStart, s`nameEnd, (if s.group == null then {} else {s.group})`members
      modifies (if s.group == null then {} else {s.group})`rearranged
      ensures var g := old(s.group); var gone := old(Emptied(s.group, s));
              Snapshot() == (if gone then DeleteOne(old(Snapshot()), g, g.selected, hasTree) else old(Snapshot())) &&
              siteIDGroups == (if gone then old(siteIDGroups) - {g.siteID} else old(siteIDGroups)) &&
              (g != null ==> g.members == Seqs.RemoveFirst(old(g.members), s)) &&
              (g != null ==> g.rearranged == old(g.rearranged) + (if s in old(g.members) && |g.members| > 0 then [g.members] else [])) &&
              (g != null && s in old(g.members) ==> s.group == null && s.nameStart == -1 && s.nameEnd == -1)
    {
      if s.group != null {
        var g := s.group;
        Group.Remove(g, s, true);
        assert g.members == Seqs.RemoveFirst(old(g.members), s);
        ghost var gone := old(Emptied(s.group, s));
        assert gone <==> g.siteID != "" && |g.members| == 0;
        if g.siteID != "" && |g.members| == 0 {
          DropSiteGroup(g);
        }
      }
    }

    /** The part of deleteSource that retires an emptied site-ID group: it
        leaves the lists and the site-ID map and is queued for deletion. */
    method DropSiteGroup(g: Rect)
      requires g.siteID in siteIDGroups && (g.selected ==> g in selectedObjects)
      modifies this`drawnObjects, this`sessionFocusObjs, this`selectedObjects, this`objectsToRemoveFromTree
      modifies this`siteIDGroups, this`objectsToDelete
      ensures Snapshot() == DeleteOne(old(Snapshot()), g, g.selected, hasTree)
      ensures siteIDGroups == old(siteIDGroups) - {g.siteID}
    {
      RemoveFromLists(g, true);
      siteIDGroups := siteIDGroups - {g.siteID};
      objectsToDelete := objectsToDelete + [g];
    }

    /** deleteGroup(g): its members leave it, it leaves the lists, and it is
        queued for deletion. */
    method DeleteGroup(g: Rect)
      requires g.IsGroup() && (g.selected ==> g in selectedObjects)
      modifies this`drawnObjects, this`sessionFocusObjs, this`selectedObjects, this`objectsToRemoveFromTree
      modifies this`objectsToDelete, g`members, g`rearranged, g.members`group, g.members`nameStart, g.members`nameEnd
      ensures g.members == [] && g.rearranged == old(g.rearranged)
      ensures forall m :: m in old(g.members) ==> m.group == null && m.nameStart == -1 && m.nameEnd == -1
      ensures Snapshot() == DeleteOne(old(Snapshot()), g, g.selected, hasTree)
    {
      Group.RemoveAll(g);
      RemoveFromLists(g, true);
      objectsToDelete := objectsToDelete + [g];
    }

    /** ungroupSiteIDGroups: every site-ID group, in key order, loses its
        members, leaves the lists and is queued for deletion; the map is
        emptied. */
    method UngroupSiteIDGroups(keys: seq<string>)
      requires Enumerates(keys, siteIDGroups) && Injective(siteIDGroups)
      requires forall k :: k in siteIDGroups ==>
                 siteIDGroups[k].IsGroup() && (siteIDGroups[k].selected ==> siteIDGroups[k] in selectedObjects)
      modifies this`drawnObjects, this`sessionFocusObjs, this`selectedObjects, this`objectsToRemoveFromTree
      modifies this`objectsToDelete, this`siteIDGroups, siteIDGroups.Values`members, siteIDGroups.Values`rearranged
      modifies SiteMembers(siteIDGroups)`group
      modifies SiteMembers(siteIDGroups)`nameStart
      modifies SiteMembers(siteIDGroups)`nameEnd
      ensures siteIDGroups == map[]
      ensures var gs := GroupsInOrder(old(siteIDGroups), keys);
              Snapshot() == DeleteAll(old(Snapshot()), gs, old(Flags(gs)), hasTree)
      ensures var gs := GroupsInOrder(old(siteIDGroups), keys);
              forall j :: 0 <= j < |gs| ==> Dissolved(gs[j], old(MembersOf(gs))[j])
    {
      var gs := GroupsInOrder(siteIDGroups, keys);
      ghost var l0, sels, ms := Snapshot(), Flags(gs), MembersOf(gs);
      SiteGroupsReady(siteIDGroups, keys, selectedObjects, gs, sels, ms);
      // The source clears the map after the loop; nothing in the loop reads
      // it, so clearing it first leaves the same state.
      ghost var mem := SiteMembers(siteIDGroups);
      siteIDGroups := map[];
      StartDeleting(gs, sels, ms, l0, mem);
      DeleteGroups(gs, sels, ms, l0, mem);
      DoneDeleting(gs, sels, ms, l0, mem);
    }

    /** The loop of ungroupSiteIDGroups over the groups in key order:
        deleteGroup's work for each in turn, ending in the loop state after
        every group (see DoneDeleting). mem holds their members. */
    method DeleteGroups(gs: seq<Rect>, ghost sels: seq<bool>, ghost ms: seq<seq<Rect>>, ghost l0: Lists,
                        ghost mem: set<Rect>)
      requires forall j, m :: 0 <= j < |ms| && m in ms[j] ==> m in mem
      requires Deleting(gs, sels, ms, l0, mem, 0)
      modifies this`drawnObjects, this`sessionFocusObjs, this`selectedObjects, this`objectsToRemoveFromTree
      modifies this`objectsToDelete, gs`members, gs`rearranged
      modifies mem`group, mem`nameStart, mem`nameEnd
      ensures Deleting(gs, sels, ms, l0, mem, |gs|)
    {
      var i := 0;
      while i < |gs|
        invariant Deleting(gs, sels, ms, l0, mem, i)
      {
        DeleteStep(gs, i, sels, ms, l0, mem);
        i := i + 1;
      }
    }

    /** The state of that loop after its first i turns: the lists are
        DeleteFirst of i groups, the groups before i are dissolved, and the
        later ones are distinct groups that still have their members and,
        when flagged, are still selected. */
    ghost predicate Deleting(gs: seq<Rect>, sels: seq<bool>, ms: seq<seq<Rect>>, l0: Lists, mem: set<Rect>, i: int)
      requires forall j, m :: 0 <= j < |ms| && m in ms[j] ==> m in mem
      reads this`drawnObjects, this`sessionFocusObjs, this`selectedObjects, this`objectsToDelete
      reads this`objectsToRemoveFromTree, this`hasTree, gs, mem
    {
      0 <= i <= |gs| == |sels| == |ms| &&
      (forall a, b :: 0 <= a < b < |gs| ==> gs[a] != gs[b]) &&
      Snapshot() == DeleteFirst(l0, gs, sels, i, hasTree) &&
      (forall j :: i <= j < |gs| ==> gs[j].IsGroup() && gs[j].selected == sels[j]) &&
      (forall j :: i <= j < |gs| ==> gs[j].members == ms[j]) &&
      (forall j :: i <= j < |gs| && sels[j] ==> gs[j] in selectedObjects) &&
      (forall j :: 0 <= j < i ==> Dissolved(gs[j], ms[j]))
    }

    /** Before the first turn the loop state holds. */
    lemma StartDeleting(gs: seq<Rect>, sels: seq<bool>, ms: seq<seq<Rect>>, l0: Lists, mem: set<Rect>)
      requires |sels| == |gs| == |ms| && l0 == Snapshot()
      requires forall a, b :: 0 <= a < b < |gs| ==> gs[a] != gs[b]
      requires forall j :: 0 <= j < |gs| ==> gs[j].IsGroup() && gs[j].selected == sels[j]
      requires forall j :: 0 <= j < |gs| && sels[j] ==> gs[j] in selectedObjects
      requires forall j :: 0 <= j < |gs| ==> gs[j].members == ms[j]
      requires forall j, m :: 0 <= j < |ms| && m in ms[j] ==> m in mem
      ensures Deleting(gs, sels, ms, l0, mem, 0)
    {
    }

    /** After the last turn the lists are DeleteFirst of every group and
        every group is dissolved. */
    lemma DoneDeleting(gs: seq<Rect>, sels: seq<bool>, ms: seq<seq<Rect>>, l0: Lists, mem: set<Rect>)
      requires forall j, m :: 0 <= j < |ms| && m in ms[j] ==> m in mem
      requires Deleting(gs, sels, ms, l0, mem, |gs|)
      ensures |sels| == |gs| && Snapshot() == DeleteFirst(l0, gs, sels, |gs|, hasTree)
      ensures forall j :: 0 <= j < |gs| ==> Dissolved(gs[j], ms[j])
    {
    }

    /** A turn of that loop: the state after i turns becomes the state after
        i + 1. */
    method DeleteStep(gs: seq<Rect>, i: int, ghost sels: seq<bool>, ghost ms: seq<seq<Rect>>, ghost l0: Lists,
                      ghost mem: set<Rect>)
      requires forall j, m :: 0 <= j < |ms| && m in ms[j] ==> m in mem
      requires Deleting(gs, sels, ms, l0, mem, i) && i < |gs|
      modifies this`drawnObjects, this`sessionFocusObjs, this`selectedObjects, this`objectsToRemoveFromTree
      modifies this`objectsToDelete, gs`members, gs`rearranged
      modifies mem`group, mem`nameStart, mem`nameEnd
      ensures Deleting(gs, sels, ms, l0, mem, i + 1)
    {
      DeleteFirstStep(l0, gs, sels, i, hasTree);
      DeleteNext(gs, i, sels, ms, mem);
    }

    /** One turn of that loop: deleteGroup on the i-th group takes the lists
        one DeleteOne further, releases its members, and keeps the groups
        before it dissolved and the later flagged ones selected. */
    method DeleteNext(gs: seq<Rect>, i: int, ghost sels: seq<bool>, ghost ms: seq<seq<Rect>>, ghost mem: set<Rect>)
      requires 0 <= i < |gs| == |sels| == |ms|
      requires forall a, b :: 0 <= a < b < |gs| ==> gs[a] != gs[b]
      requires gs[i].IsGroup() && gs[i].selected == sels[i]
      requires forall m :: m in ms[i] ==> m in mem
      requires forall j :: i <= j < |gs| ==> gs[j].members == ms[j]
      requires forall j :: i <= j < |gs| && sels[j] ==> gs[j] in selectedObjects
      requires forall j :: 0 <= j < i ==> Dissolved(gs[j], ms[j])
      modifies this`drawnObjects, this`sessionFocusObjs, this`selectedObjects, this`objectsToRemoveFromTree
      modifies this`objectsToDelete, gs`members, gs`rearranged
      modifies mem`group, mem`nameStart, mem`nameEnd
      ensures Snapshot() == DeleteOne(old(Snapshot()), gs[i], sels[i], hasTree)
      ensures forall j :: i < j < |gs| ==> gs[j].members == ms[j]
      ensures forall j :: i < j < |gs| && sels[j] ==> gs[j] in selectedObjects
      ensures forall j :: 0 <= j <= i ==> Dissolved(gs[j], ms[j])
    {
      var g := gs[i];
      assert forall j :: 0 <= j < |gs| && j != i ==> gs[j] != g;
      StillListed(gs, sels, i, selectedObjects);
      DeleteGroup(g);
      assert Dissolved(g, ms[i]);
    }

    /** setSiteIDGrouping: turning site grouping off ungroups every site-ID
        group. */
    method SetSiteIDGrouping(site: bool, keys: seq<string>)
      requires Enumerates(keys, siteIDGroups) && Injective(siteIDGroups)
      requires forall k :: k in siteIDGroups ==>
                 siteIDGroups[k].IsGroup() && (siteIDGroups[k].selected ==> siteIDGroups[k] in selectedObjects)
      modifies this`enableSiteIDGroups
      modifies this`drawnObjects, this`sessionFocusObjs, this`selectedObjects, this`objectsToRemoveFromTree
      modifies this`objectsToDelete, this`siteIDGroups, siteIDGroups.Values`members, siteIDGroups.Values`rearranged
      modifies SiteMembers(siteIDGroups)`group
      modifies SiteMembers(siteIDGroups)`nameStart
      modifies SiteMembers(siteIDGroups)`nameEnd
      ensures enableSiteIDGroups == site
      ensures site ==> siteIDGroups == old(siteIDGroups) && drawnObjects == old(drawnObjects)
      ensures site ==> objectsToDelete == old(objectsToDelete) && selectedObjects == old(selectedObjects)
      ensures !site ==> siteIDGroups == map[] &&
                        var gs := GroupsInOrder(old(siteIDGroups), keys);
                        Snapshot() == DeleteAll(old(Snapshot()), gs, old(Flags(gs)), hasTree)
      ensures !site ==> var gs := GroupsInOrder(old(siteIDGroups), keys);
                        forall j :: 0 <= j < |gs| ==> Dissolved(gs[j], old(MembersOf(gs))[j])
    {
      ghost var gs := GroupsInOrder(siteIDGroups, keys);
      ghost var l0, sels, ms := Snapshot(), Flags(gs), MembersOf(gs);
      enableSiteIDGroups := site;
      assert Snapshot() == l0 && Flags(gs) == sels && MembersOf(gs) == ms;
      if !site {
        UngroupSiteIDGroups(keys);
      }
    }

    /** createSiteIDGroup(data): a new group named and site-tagged with the
        data, drawn, and listed under that key unless the key is taken
        (std::map::insert keeps an existing entry). */
    method CreateSiteIDGroup(data: string, random: Color) returns (g: Rect)
      modifies this`drawnObjects, this`siteIDGroups
      ensures fresh(g) && g.kind == GroupKind && g.members == [] && g.group == null && g.rearranged == []
      ensures g.name == data && !g.finalName && g.siteID == data
      ensures drawnObjects == old(drawnObjects) + [g]
      ensures siteIDGroups == if data in old(siteIDGroups) then old(siteIDGroups) else old(siteIDGroups)[data := g]
    {
      g := Group.NewGroup(0.0, 0.0, random);
      g.name := data;
      g.siteID := data;
      drawnObjects := drawnObjects + [g];
      if data !in siteIDGroups {
        siteIDGroups := siteIDGroups[data := g];
      }
    }

    /** doDelayedDelete: every queued object is freed, in queue order, and
        the queue emptied. */
    method DoDelayedDelete()
      modifies this`objectsToDelete, this`freed
      ensures freed == old(freed) + old(objectsToDelete) && objectsToDelete == []
    {
      var i := 0;
      while i < |objectsToDelete|
        invariant 0 <= i <= |objectsToDelete| && objectsToDelete == old(objectsToDelete)
        invariant freed == old(freed) + objectsToDelete[..i]
      {
        freed := freed + [objectsToDelete[i]];
        i := i + 1;
      }
      assert objectsToDelete[..i] == objectsToDelete;
      objectsToDelete := [];
    }

    // ---- modes ----

    /** setRunwayUsage (showing the runway and resizing the screen
        rectangles are drawing matters). */
    method SetRunwayUsage(run: bool)
      modifies this`useRunway
      ensures useRunway == run
    {
      useRunway := run;
    }

    /** setGridAuto: turning the automatic grid on turns the runway off. */
    method SetGridAuto(g: bool)
      modifies this`gridAuto, this`useRunway
      ensures gridAuto == g
      ensures useRunway == (old(useRunway) && !g)
    {
      gridAuto := g;
      if g && useRunway {
        SetRunwayUsage(false);
      }
    }

    /** setAutoFocusRotate: turning automatic focus on turns the runway off. */
    method SetAutoFocusRotate(a: bool)
      modifies this`autoFocusRotate, this`useRunway
      ensures autoFocusRotate == a
      ensures useRunway == (old(useRunway) && !a)
    {
      autoFocusRotate := a;
      if a && useRunway {
        SetRunwayUsage(false);
      }
    }

    /** setThumbnailMap: storing the map turns session focus on. */
    method SetThumbnailMap(tm: map<string, string>)
      modifies this`thumbnailMap, this`sessionFocus
      ensures thumbnailMap == tm && sessionFocus
    {
      thumbnailMap := tm;
      sessionFocus := true;
    }

    /** setFocusSession: a new focused session starts with no objects. */
    method SetFocusSession(f: string)
      modifies this`focusSession, this`sessionFocusObjs
      ensures focusSession == f && sessionFocusObjs == []
    {
      focusSession := f;
      sessionFocusObjs := [];
    }

    // ---- frame counters ----

    /** The counters draw advances at the end of every frame. */
    method AdvanceCounters(leftButtonHeld: bool)
      requires CountersInRange()
      modifies this`holdCounter, this`drawCounter, this`intersectCounter, this`autoCounter
      ensures CountersInRange()
      ensures holdCounter == NextHold(old(holdCounter), leftButtonHeld)
      ensures drawCounter == (old(drawCounter) + 1) % 30
      ensures intersectCounter == (old(intersectCounter) + 1) % 20
      ensures autoCounter == (old(autoCounter) + 1) % 900
    {
      if !leftButtonHeld && holdCounter > 0 {
        holdCounter := holdCounter - 2;
      } else if holdCounter < 24 {
        holdCounter := holdCounter + 1;
      }
      drawCounter := (drawCounter + 1) % 30;
      intersectCounter := (intersectCounter + 1) % 20;
      autoCounter := (autoCounter + 1) % 900;
    }

    /** resetAutoCounter. */
    method ResetAutoCounter()
      modifies this`autoCounter
      ensures autoCounter == 0
    {
      autoCounter := 0;
    }
  }
}
