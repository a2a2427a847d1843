// The video listener (src/VideoListener.cpp): the media session's callbacks
// for video. A new video decoder becomes a video source, placed on a simple
// grid and handed to the object manager; a deleted RTP source is found by
// session and SSRC and deleted; an RTCP APP packet named "site" (section 6.7
// of RFC 3550) puts its source in the site-ID group its data names. The
// decoder's kind, the sink's initialisation, the session lookup and the
// picture size are inputs here; the media library provides them.
module VideoListener {
  import opened RectangleBase
  import Seqs
  import Group
  import VideoSource
  import Objects

  const InitialX := -7.5
  const InitialY := 5.7
  /** The scale a new video source is given. */
  const NewSourceScale := 5.25
  /** How much of an APP packet's data names the site. */
  const SiteDataLength := 32

  /** C++ division of ints: the quotient truncated toward zero. */
  function CDiv(a: int, b: int): (q: int)
    requires b > 0
    ensures a >= 0 ==> q == a / b
    ensures a < 0 ==> q == -((-a) / b)
  {
    if a >= 0 then a / b else -((-a) / b)
  }

  /** Where the next video source goes after one was placed at (x, y), with
      count video sources created so far: 8.8 further right; past 15 a new
      row starts 5.9 lower at -7.5; below -11 the grid starts over near the
      top, half a unit further in for every nine sources. */
  function NextSlot(x: real, y: real, count: int): (r: (real, real))
  {
    var x1 := x + 8.8;
    var (x2, y2) := if x1 > 15.0 then (-7.5, y - 5.9) else (x1, y);
    if y2 < -11.0 then
      var d := CDiv(count, 9) as real;
      (InitialX + 0.5 * d, InitialY - 0.5 * d)
    else (x2, y2)
  }

  /** The slots run in rows of three from the left edge: from -7.5, the
      third step starts the next row, and nothing else changes the row. */
  lemma RowsOfThree(y: real, count: int)
    requires y - 5.9 >= -11.0
    ensures NextSlot(-7.5, y, count) == (1.3, y)
    ensures NextSlot(1.3, y, count) == (10.1, y)
    ensures NextSlot(10.1, y, count) == (-7.5, y - 5.9)
  {
  }

  /** Whatever the slot, the next one is either further right in the same
      row, at the start of the next row, or the restart near the top. */
  lemma SlotAdvances(x: real, y: real, count: int)
    ensures var r := NextSlot(x, y, count);
            (r == (x + 8.8, y) && x + 8.8 <= 15.0 && y >= -11.0) ||
            (r == (-7.5, y - 5.9) && x + 8.8 > 15.0 && y - 5.9 >= -11.0) ||
            (r.0 - InitialX == InitialY - r.1 && (y < -11.0 || y - 5.9 < -11.0))
  {
  }

  /** The position of the first source in ss whose session and SSRC are the
      given ones, or |ss| when there is none. */
  function SourceIndex(ss: seq<Rect>, session: int, ssrc: int): (i: nat)
    reads ss
    ensures i <= |ss|
    ensures i < |ss| ==> ss[i].session == session && ss[i].ssrc == ssrc
    ensures forall j :: 0 <= j < i ==> !(ss[j].session == session && ss[j].ssrc == ssrc)
  {
    if |ss| == 0 then 0
    else if ss[0].session == session && ss[0].ssrc == ssrc then 0
    else 1 + SourceIndex(ss[1..], session, ssrc)
  }

  /** The position of the first source in ss with the given SSRC, whatever
      its session, or |ss| when there is none. */
  function SsrcIndex(ss: seq<Rect>, ssrc: int): (i: nat)
    reads ss
    ensures i <= |ss|
    ensures i < |ss| ==> ss[i].ssrc == ssrc
    ensures forall j :: 0 <= j < i ==> ss[j].ssrc != ssrc
  {
    if |ss| == 0 then 0
    else if ss[0].ssrc == ssrc then 0
    else 1 + SsrcIndex(ss[1..], ssrc)
  }

  /** The site-ID text of an APP packet's data: its first 32 characters. */
  function SiteData(data: string): (d: string)
    ensures |d| <= SiteDataLength
    ensures d <= data
    ensures |data| <= SiteDataLength ==> d == data
  {
    if |data| <= SiteDataLength then data else data[..SiteDataLength]
  }

  /** The groups of the sources in ss. */
  function GroupsOf(ss: seq<Rect>): (r: set<Rect>)
    reads ss
    ensures forall s :: s in ss && s.group != null ==> s.group in r
  {
    set s | s in ss && s.group != null :: s.group
  }

  /** The kind, session, SSRC, picture size, scale and destination of a
      source. */
  datatype Shape = Shape(kind: Kind, session: int, ssrc: int, vwidth: int, vheight: int,
                         scaleX: real, scaleY: real, destX: real, destY: real)

  class VideoListener {
    const objectMan: Objects.ObjectManager
    var x: real
    var y: real
    var sourceCount: int
    var pixelCount: int

    /** VideoListener(o): placement starts at the top left of the grid and
        nothing is counted yet. */
    constructor (o: Objects.ObjectManager)
      ensures objectMan == o && x == InitialX && y == InitialY
      ensures sourceCount == 0 && pixelCount == 0
    {
      objectMan := o;
      x, y := InitialX, InitialY;
      sourceCount, pixelCount := 0, 0;
    }

    /** updatePixelCount: the signed change is added, so a change and its
        negation leave the count as it was. */
    method UpdatePixelCount(delta: int)
      modifies this`pixelCount
      ensures pixelCount == old(pixelCount) + delta
    {
      pixelCount := pixelCount + delta;
    }

    /** vpmsession_source_created. Only video decoders count; each one is
        counted even when its sink cannot be set up or its session is not
        known, in which case nothing else happens. Otherwise a video source
        of the picture's size, scaled to 5.25 and headed for the current
        slot, is handed to the object manager, and the slot advances. */
    method SourceCreated(session: int, ssrc: int, isVideo: bool, sinkReady: bool, sessionFound: bool,
                         width: nat, height: nat, sessionAddress: string,
                         sdesName: string, sdesCname: string, loc: string, strtod: string -> real)
      returns (created: Rect?)
      requires objectMan.RunwayReady()
      modifies this`sourceCount, this`x, this`y
      modifies objectMan`sources, objectMan`drawnObjects, objectMan`objectsToAddToTree, objectMan`sessionFocusObjs
      modifies objectMan`arrangements
      modifies objectMan.runway`members, objectMan.runway`name, objectMan.runway`finalName, objectMan.runway`rearranged
      modifies objectMan.runway.members`nameStart, objectMan.runway.members`nameEnd
      ensures sourceCount == old(sourceCount) + (if isVideo then 1 else 0)
      ensures created == null <==> !isVideo || !sinkReady || !sessionFound
      ensures created == null ==>
                x == old(x) && y == old(y) && unchanged(objectMan) && unchanged(objectMan.runway)
      ensures created != null ==>
                fresh(created) && Fresh(created, session, ssrc, width, height, old(x), old(y)) &&
                objectMan.sources == old(objectMan.sources) + [created] &&
                objectMan.drawnObjects == old(objectMan.drawnObjects) + [created] &&
                (x, y) == NextSlot(old(x), old(y), sourceCount)
      ensures created != null ==>
                objectMan.Enlisted(created, old(objectMan.sources), old(objectMan.drawnObjects),
                                   old(objectMan.objectsToAddToTree), UnnamedSource,
                                   DefaultLat, DefaultLon, sdesName, sdesCname, loc, strtod) &&
                objectMan.Placed(created, sessionAddress, sourceCount, old(objectMan.sessionFocusObjs),
                                 old(objectMan.arrangements), old(objectMan.runway.members),
                                 old(objectMan.runway.rearranged))
      ensures objectMan.RunwayReady()
    {
      created := null;
      if !isVideo {
        return;
      }
      sourceCount := sourceCount + 1;
      if !sinkReady || !sessionFound {
        return;
      }
      created := HandOver(session, ssrc, width, height, sessionAddress, sdesName, sdesCname, loc, strtod);
      AdvanceSlot();
    }

    /** The part of source_created that makes the source and hands it to the
        object manager, headed for the current slot. */
    method HandOver(session: int, ssrc: int, width: nat, height: nat, sessionAddress: string,
                    sdesName: string, sdesCname: string, loc: string, strtod: string -> real)
      returns (source: Rect)
      requires objectMan.RunwayReady()
      modifies objectMan`sources, objectMan`drawnObjects, objectMan`objectsToAddToTree, objectMan`sessionFocusObjs
      modifies objectMan`arrangements
      modifies objectMan.runway`members, objectMan.runway`name, objectMan.runway`finalName, objectMan.runway`rearranged
      modifies objectMan.runway.members`nameStart, objectMan.runway.members`nameEnd
      ensures fresh(source) && Fresh(source, session, ssrc, width, height, old(x), old(y))
      ensures objectMan.sources == old(objectMan.sources) + [source]
      ensures objectMan.drawnObjects == old(objectMan.drawnObjects) + [source]
      ensures objectMan.Enlisted(source, old(objectMan.sources), old(objectMan.drawnObjects),
                                 old(objectMan.objectsToAddToTree), UnnamedSource,
                                 DefaultLat, DefaultLon, sdesName, sdesCname, loc, strtod)
      ensures objectMan.Placed(source, sessionAddress, sourceCount, old(objectMan.sessionFocusObjs),
                               old(objectMan.arrangements), old(objectMan.runway.members),
                               old(objectMan.runway.rearranged))
      ensures objectMan.RunwayReady()
    {
      source := NewSource(session, ssrc, width, height, x, y);
      Objects.NewestMovableLast(objectMan.drawnObjects, source);
      Register(source, sessionAddress, sdesName, sdesCname, loc, strtod);
    }

    /** Hands a new source to the object manager's addNewSource; the
        source's kind, stream, size, scale and destination are not in its
        frame. */
    method Register(source: Rect, sessionAddress: string,
                    sdesName: string, sdesCname: string, loc: string, strtod: string -> real)
      requires source.kind == VideoKind && objectMan.RunwayReady()
      requires objectMan.autoFocusRotate ==> |Objects.Movable(objectMan.drawnObjects + [source])| > 0
      modifies objectMan`sources, objectMan`drawnObjects, objectMan`objectsToAddToTree, objectMan`sessionFocusObjs
      modifies objectMan`arrangements
      modifies objectMan.runway`members, objectMan.runway`name, objectMan.runway`finalName, objectMan.runway`rearranged
      modifies objectMan.runway.members`nameStart, objectMan.runway.members`nameEnd
      modifies source`group, source`nameStart, source`nameEnd, source`name, source`altName, source`finalName
      modifies source`lat, source`lon
      ensures objectMan.sources == old(objectMan.sources) + [source]
      ensures objectMan.drawnObjects == old(objectMan.drawnObjects) + [source]
      ensures objectMan.Enlisted(source, old(objectMan.sources), old(objectMan.drawnObjects),
                                 old(objectMan.objectsToAddToTree), old(objectMan.NamingOf(source)),
                                 old(source.lat), old(source.lon), sdesName, sdesCname, loc, strtod)
      ensures objectMan.Placed(source, sessionAddress, sourceCount, old(objectMan.sessionFocusObjs),
                               old(objectMan.arrangements), old(objectMan.runway.members),
                               old(objectMan.runway.rearranged))
      ensures objectMan.RunwayReady()
    {
      objectMan.AddNewSource(source, sessionAddress, sourceCount, sdesName, sdesCname, loc, strtod);
    }

    /** The naming of a source that has just been made: no name, no
        alternative name, not final. */
    const UnnamedSource := VideoSource.Naming("", "", false)

    /** A video source of the picture's size for that session and SSRC,
        scaled to 5.25 and headed for (x0, y0). */
    ghost predicate Fresh(v: Rect, session: int, ssrc: int, width: nat, height: nat, x0: real, y0: real)
      reads v`kind, v`session, v`ssrc, v`vwidth, v`vheight, v`destScaleX, v`destScaleY, v`destX, v`destY
    {
      ShapeOf(v) == Shape(VideoKind, session, ssrc, width, height, NewSourceScale, NewSourceScale, x0, y0)
    }

    /** What source_created sets up in a source. */
    ghost function ShapeOf(v: Rect): Shape
      reads v`kind, v`session, v`ssrc, v`vwidth, v`vheight, v`destScaleX, v`destScaleY, v`destX, v`destY
    {
      Shape(v.kind, v.session, v.ssrc, v.vwidth, v.vheight, v.destScaleX, v.destScaleY, v.destX, v.destY)
    }

    /** The grid placement at the end of source_created. */
    method AdvanceSlot()
      modifies this`x, this`y
      ensures (x, y) == NextSlot(old(x), old(y), sourceCount)
    {
      x := x + 8.8;
      if x > 15.0 {
        x := -7.5;
        y := y - 5.9;
      }
      if y < -11.0 {
        var d := CDiv(sourceCount, 9) as real;
        x := InitialX + 0.5 * d;
        y := InitialY - 0.5 * d;
      }
    }

    /** The source that source_created hands over: a video source of the
        picture's size, scaled to 5.25 and headed for (x0, y0). */
    static method NewSource(session: int, ssrc: int, width: nat, height: nat, x0: real, y0: real)
      returns (v: Rect)
      ensures fresh(v) && v.kind == VideoKind && v.group == null && v.userMovable
      ensures v.session == session && v.ssrc == ssrc && v.vwidth == width && v.vheight == height
      ensures v.destScaleX == NewSourceScale && v.destScaleY == NewSourceScale
      ensures v.destX == x0 && v.destY == y0
      ensures v.name == "" && v.altName == "" && !v.finalName && v.lat == DefaultLat && v.lon == DefaultLon
    {
      v := VideoSource.NewVideoSource(session, ssrc, width, height, 0.0, 0.0);
      v.SetScale(NewSourceScale, NewSourceScale);
      v.Move(x0, y0);
    }

    /** The search loop of source_deleted over the object manager's sources. */
    method FindSource(session: int, ssrc: int) returns (i: nat)
      ensures i == SourceIndex(objectMan.sources, session, ssrc)
    {
      var ss := objectMan.sources;
      i := 0;
      while i < |ss| && !(ss[i].session == session && ss[i].ssrc == ssrc)
        invariant i <= |ss|
        invariant forall j :: 0 <= j < i ==> !(ss[j].session == session && ss[j].ssrc == ssrc)
      {
        i := i + 1;
      }
    }

    /** vpmsession_source_deleted: only the first source of that session with
        that SSRC goes. It is no longer counted, its picture area leaves the
        pixel count, and the object manager deletes it. With no such source
        nothing changes. */
    method SourceDeleted(session: int, ssrc: int)
      requires var i := SourceIndex(objectMan.sources, session, ssrc);
               i < |objectMan.sources| ==> objectMan.CanDelete(i)
      modifies this`sourceCount, this`pixelCount
      modifies objectMan`drawnObjects, objectMan`sessionFocusObjs, objectMan`selectedObjects
      modifies objectMan`objectsToRemoveFromTree, objectMan`sources, objectMan`siteIDGroups
      modifies objectMan`objectsToDelete, objectMan`arrangements
      modifies objectMan.sources`group, objectMan.sources`nameStart, objectMan.sources`nameEnd
      modifies GroupsOf(objectMan.sources)`members, GroupsOf(objectMan.sources)`rearranged
      ensures var i := old(SourceIndex(objectMan.sources, session, ssrc));
              i == old(|objectMan.sources|) ==>
                sourceCount == old(sourceCount) && pixelCount == old(pixelCount) && unchanged(objectMan)
      ensures var i := old(SourceIndex(objectMan.sources, session, ssrc));
              i < old(|objectMan.sources|) ==>
                var s := old(objectMan.sources[i]);
                sourceCount == old(sourceCount) - 1 &&
                pixelCount == old(pixelCount) + old(VideoSource.AreaRelease(s.vwidth, s.vheight)) &&
                objectMan.sources == Seqs.RemoveAt(old(objectMan.sources), i) &&
                |objectMan.objectsToDelete| > 0 && objectMan.objectsToDelete[|objectMan.objectsToDelete| - 1] == s
      ensures var i := old(SourceIndex(objectMan.sources, session, ssrc));
              i < old(|objectMan.sources|) ==>
                var g := old(objectMan.sources[i].group);
                objectMan.Retired(i, old(objectMan.sources), old(objectMan.Snapshot()), old(objectMan.siteIDGroups),
                                  old(objectMan.sources[i].selected), g,
                                  old(objectMan.Emptied(objectMan.sources[i].group, objectMan.sources[i])),
                                  old(if g == null then false else g.selected),
                                  old(if g == null then [] else g.members),
                                  old(if g == null then [] else g.rearranged)) &&
                objectMan.arrangements ==
                  old(objectMan.arrangements) +
                  (if objectMan.gridAuto then [Objects.Grid(Objects.Movable(objectMan.drawnObjects))] else [])
    {
      var i := FindSource(session, ssrc);
      if i < |objectMan.sources| {
        var s := objectMan.sources[i];
        sourceCount := sourceCount - 1;
        UpdatePixelCount(VideoSource.AreaRelease(s.vwidth, s.vheight));
        objectMan.DeleteSource(i);
        assert objectMan.Snapshot().toDelete == objectMan.objectsToDelete;
      }
    }

    /** The search loop of source_app, by SSRC alone. */
    method FindSsrc(ssrc: int) returns (i: nat)
      ensures i == SsrcIndex(objectMan.sources, ssrc)
    {
      var ss := objectMan.sources;
      i := 0;
      while i < |ss| && ss[i].ssrc != ssrc
        invariant i <= |ss|
        invariant forall j :: 0 <= j < i ==> ss[j].ssrc != ssrc
      {
        i := i + 1;
      }
    }

    /** What source_app assumes of the object manager: its sources are video
        sources, and every site-ID group is a group that is not its own
        member. */
    predicate SitesReady()
      reads this, objectMan, objectMan.sources, objectMan.siteIDGroups.Values
    {
      (forall s :: s in objectMan.sources ==> s.kind == VideoKind) &&
      (forall k :: k in objectMan.siteIDGroups ==>
         objectMan.siteIDGroups[k].IsGroup() && objectMan.siteIDGroups[k] !in objectMan.siteIDGroups[k].members)
    }

    /** vpmsession_source_app. Only an APP packet whose four-octet name
        (section 6.7 of RFC 3550) is "site", with site grouping on, does
        anything. Its data, cut to 32 characters, is the
        site ID; the first source with the packet's SSRC, if it is in no
        group, takes that site ID and joins the group listed under it, which
        is created (and drawn) when there is none. A source that is already
        grouped, an unknown SSRC and an empty source list change nothing.
        The random colour of a new group is a parameter. */
    method SourceApp(ssrc: int, app: string, data: string, random: Color) returns (joined: Rect?)
      requires SitesReady() && |app| >= 4
      modifies objectMan`drawnObjects, objectMan`siteIDGroups
      modifies objectMan.sources`siteID, objectMan.sources`group
      modifies objectMan.sources`nameStart, objectMan.sources`nameEnd
      modifies objectMan.siteIDGroups.Values`members, objectMan.siteIDGroups.Values`name
      modifies objectMan.siteIDGroups.Values`rearranged
      modifies objectMan.siteIDGroups.Values`finalName
      modifies Objects.SiteMembers(objectMan.siteIDGroups)`nameStart
      modifies Objects.SiteMembers(objectMan.siteIDGroups)`nameEnd
      ensures var ss := old(objectMan.sources); var i := old(SsrcIndex(objectMan.sources, ssrc));
              joined == null <==>
                app[..4] != "site" || !old(objectMan.enableSiteIDGroups) || i == |ss| || old(ss[i].group) != null
      ensures joined == null ==> unchanged(objectMan) && unchanged(objectMan.sources)
      ensures joined != null ==>
                var d := SiteData(data); var s := old(objectMan.sources[SsrcIndex(objectMan.sources, ssrc)]);
                var m := old(objectMan.siteIDGroups);
                s.siteID == d && joined == s.group && d in objectMan.siteIDGroups &&
                objectMan.siteIDGroups[d] == joined &&
                joined.rearranged == (if d in m then old(m[d].rearranged) else []) + [joined.members] &&
                (d in m ==> joined == m[d] && objectMan.siteIDGroups == m &&
                            joined.members == old(m[d].members) + [s] &&
                            objectMan.drawnObjects == old(objectMan.drawnObjects)) &&
                (d !in m ==> fresh(joined) && joined.kind == GroupKind && joined.members == [s] &&
                             objectMan.siteIDGroups == m[d := joined] &&
                             objectMan.drawnObjects == old(objectMan.drawnObjects) + [joined])
      ensures joined != null && joined.kind == GroupKind && Group.Finalized(joined.members) ==> Group.NamedBy(joined)
      ensures joined != null && (joined.kind == RunwayKind || !Group.Finalized(joined.members)) ==>
                var d := SiteData(data); var s := old(objectMan.sources[SsrcIndex(objectMan.sources, ssrc)]);
                var m := old(objectMan.siteIDGroups);
                s.nameStart == old(s.nameStart) && s.nameEnd == old(s.nameEnd) &&
                (d in m ==> joined.name == old(m[d].name) && joined.finalName == old(m[d].finalName) &&
                            forall o :: o in old(m[d].members) ==> o.nameStart == old(o.nameStart) && o.nameEnd == old(o.nameEnd)) &&
                (d !in m ==> joined.name == d && !joined.finalName)
    {
      joined := null;
      if app[..4] != "site" || !objectMan.enableSiteIDGroups {
        return;
      }
      var d := SiteData(data);
      if |objectMan.sources| == 0 {
        return;
      }
      var i := FindSsrc(ssrc);
      if i == |objectMan.sources| {
        return;
      }
      var s := objectMan.sources[i];
      if s.group != null {
        return;
      }
      var g: Rect;
      if d in objectMan.siteIDGroups {
        g := objectMan.siteIDGroups[d];
      } else {
        g := objectMan.CreateSiteIDGroup(d, random);
      }
      s.siteID := d;
      Group.Add(g, s);
      joined := g;
    }
  }
}
