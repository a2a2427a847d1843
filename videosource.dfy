// A video source on screen (src/VideoSource.cpp): its names from the RTP
// source description (SDES NAME, CNAME and LOC items, section 6.5 of RFC
// 3550), the rendering switch and its colours, the native-size guard and
// the aspect ratio recomputed when the decoded picture changes size. The
// SDES items, the mute state and the ray cast are inputs here; they come
// from the media library and the renderer.
module VideoSource {
  import opened RectangleBase
  import opened Wrappers
  import Seqs

  /** The aspect a new source starts with. */
  const InitialAspect := 1.56
  /** The aspect assumed when the picture has no height. */
  const DefaultAspect := 1.33
  /** The colour of a source whose rendering is switched off. */
  const HiddenColor := Color(0.05, 0.1, 1.0, 0.0)

  /** VideoSource(session, listener, ssrc, sink, x, y): the picture size as
      the sink reports it, aspect 1.56 (the ratio computed from the size
      first is overwritten), not animating its aspect, rendering. */
  method NewVideoSource(session: int, ssrc: int, width: nat, height: nat, x0: real, y0: real)
    returns (v: Rect)
    ensures fresh(v) && v.kind == VideoKind && v.Defaults()
    ensures v.session == session && v.ssrc == ssrc && v.vwidth == width && v.vheight == height
    ensures v.aspect == InitialAspect && v.destAspect == InitialAspect && !v.aspectAnimating
    ensures v.enableRendering && v.destX == x0 && v.destY == y0
  {
    v := new Rect(x0, y0);
    SetVideo(v, session, ssrc, width, height);
  }

  /** The fields VideoSource's constructor sets after RectangleBase's. */
  method SetVideo(v: Rect, session: int, ssrc: int, width: nat, height: nat)
    modifies v`kind, v`session, v`ssrc, v`vwidth, v`vheight, v`aspect, v`destAspect, v`aspectAnimating
    ensures v.kind == VideoKind && v.session == session && v.ssrc == ssrc && v.vwidth == width && v.vheight == height
    ensures v.aspect == InitialAspect && v.destAspect == InitialAspect && !v.aspectAnimating
  {
    v.kind, v.session, v.ssrc, v.vwidth, v.vheight := VideoKind, session, ssrc, width, height;
    v.aspect, v.destAspect, v.aspectAnimating := InitialAspect, InitialAspect, false;
  }

  // ---- names ----

  /** The naming state a source keeps. */
  datatype Naming = Naming(name: string, altName: string, finalName: bool)

  /** The SDES rule of updateName: a non-empty NAME that differs replaces
      the name and makes it final; a non-empty CNAME that differs replaces
      the alternative name; the result reports whether either happened. A
      name still empty then falls back to the CNAME, which is neither final
      nor a change. */
  function ApplySdes(cur: Naming, sdesName: string, sdesCname: string): (r: (Naming, bool))
    ensures r.1 <==> (sdesName != "" && sdesName != cur.name) || (sdesCname != "" && sdesCname != cur.altName)
    ensures sdesName != "" ==> r.0.name == sdesName
    ensures sdesName == "" && cur.name == "" && sdesCname != "" ==> r.0.name == sdesCname
    ensures sdesName == "" && (cur.name != "" || sdesCname == "") ==> r.0.name == cur.name
    ensures r.0.finalName <==> cur.finalName || (sdesName != "" && sdesName != cur.name)
    ensures r.0.altName == if sdesCname != "" then sdesCname else cur.altName
  {
    var changedName := sdesName != "" && sdesName != cur.name;
    var changedAlt := sdesCname != "" && sdesCname != cur.altName;
    var name := if changedName then sdesName else cur.name;
    var alt := if changedAlt then sdesCname else cur.altName;
    var name' := if name == "" && sdesCname != "" then sdesCname else name;
    (Naming(name', alt, cur.finalName || changedName), changedName || changedAlt)
  }

  /** Reading the same SDES items a second time changes nothing and reports
      no change. */
  lemma ApplySdesIdempotent(cur: Naming, sdesName: string, sdesCname: string)
    ensures var once := ApplySdes(cur, sdesName, sdesCname).0;
            ApplySdes(once, sdesName, sdesCname) == (once, false)
  {
  }

  /** The LOC item split at its first comma into latitude and longitude
      text; nothing when there is no comma. */
  function SplitLocation(loc: string): (r: Option<(string, string)>)
    ensures r.None? <==> ',' !in loc
    ensures r.Some? ==> r.value.0 + [','] + r.value.1 == loc && ',' !in r.value.0
  {
    var pos := Seqs.IndexOf(loc, ',');
    if pos < |loc| then
      assert loc == loc[..pos] + [','] + loc[pos + 1..];
      assert forall j :: 0 <= j < pos ==> loc[..pos][j] != ',';
      Some((loc[..pos], loc[pos + 1..]))
    else None
  }

  /** Any text with one comma splits back into the parts it was made of. */
  lemma SplitLocationRoundTrip(lat: string, lon: string)
    requires ',' !in lat
    ensures SplitLocation(lat + [','] + lon) == Some((lat, lon))
  {
    var loc := lat + [','] + lon;
    assert loc[|lat|] == ',';
    var r := SplitLocation(loc);
    assert r.Some?;
    var (a, b) := r.value;
    assert a == loc[..|lat|] == lat;
    assert b == loc[|lat| + 1..] == lon;
  }

  /** updateName with the SDES NAME, CNAME and LOC items as read (an item
      that cannot be read is empty) and the text-to-number conversion of
      strtod as a parameter. The coordinates change only when LOC has a
      comma. */
  method UpdateName(v: Rect, sdesName: string, sdesCname: string, loc: string, strtod: string -> real)
    returns (changed: bool)
    requires v.kind == VideoKind
    modifies v`name, v`altName, v`finalName, v`lat, v`lon
    ensures (Naming(v.name, v.altName, v.finalName), changed) ==
            ApplySdes(Naming(old(v.name), old(v.altName), old(v.finalName)), sdesName, sdesCname)
    ensures SplitLocation(loc).None? ==> v.lat == old(v.lat) && v.lon == old(v.lon)
    ensures SplitLocation(loc).Some? ==>
              v.lat == strtod(SplitLocation(loc).value.0) && v.lon == strtod(SplitLocation(loc).value.1)
  {
    changed := false;
    if sdesName != "" && sdesName != v.name {
      v.name := sdesName;
      changed := true;
      v.finalName := true;
    }
    if sdesCname != "" && sdesCname != v.altName {
      v.altName := sdesCname;
      changed := true;
    }
    if v.name == "" && sdesCname != "" {
      v.name := sdesCname;
    }
    var pos := Seqs.IndexOf(loc, ',');
    if pos < |loc| {
      v.lat := strtod(loc[..pos]);
      v.lon := strtod(loc[pos + 1..]);
    }
  }

  // ---- rendering ----

  /** setRendering: ignored while the source is muted (the mute state is the
      media session's and an input here). Otherwise the flag is set; turning
      rendering off paints the base colour blue (keeping its alpha), shown
      at once unless selected, and as the secondary colour; turning it on
      restores the default colour and clears the secondary colour. */
  method SetRendering(v: Rect, r: bool, muted: bool)
    requires v.kind == VideoKind
    modifies v`enableRendering, v`baseBColor, v`destBColor, v`borderColor, v`borderColAnimating
    modifies v`destSecondaryColor, v`secondaryColor, v`secondColAnimating
    ensures muted ==> unchanged(v)
    ensures !muted ==> v.enableRendering == r
    ensures !muted && !r ==>
              v.baseBColor == HiddenColor.(a := old(v.baseBColor.a)) && v.destSecondaryColor == v.baseBColor &&
              v.destBColor == (if old(v.selected) then old(v.destBColor) else v.baseBColor)
    ensures !muted && r ==>
              v.baseBColor == OriginalColor && v.destSecondaryColor == ClearColor &&
              v.destBColor == (if old(v.selected) then old(v.destBColor) else OriginalColor)
    ensures !muted && !v.animated ==>
              v.secondaryColor == v.destSecondaryColor && v.secondColAnimating == old(v.secondColAnimating)
    ensures !muted && v.animated ==> v.secondaryColor == old(v.secondaryColor) && v.secondColAnimating
    ensures !muted && old(v.selected) ==>
              v.borderColor == old(v.borderColor) && v.borderColAnimating == old(v.borderColAnimating)
    ensures !muted && !old(v.selected) && !v.animated ==>
              v.borderColor == v.destBColor && v.borderColAnimating == old(v.borderColAnimating)
    ensures !muted && !old(v.selected) && v.animated ==> v.borderColor == old(v.borderColor) && v.borderColAnimating
  {
    if !muted {
      v.enableRendering := r;
      if !v.enableRendering {
        v.baseBColor := v.baseBColor.(r := HiddenColor.r, g := HiddenColor.g, b := HiddenColor.b);
        if !v.selected {
          v.SetColor(v.baseBColor);
        }
        v.SetSecondaryColor(v.baseBColor);
      } else {
        v.ResetColor();
        v.SetSecondaryColor(ClearColor);
      }
    }
  }

  // ---- size ----

  /** scaleNative: nothing for a picture with no width or no height. With the
      picture's corners cast onto the screen (the ray cast is an input: hit,
      and the world-space width and height dx, dy) the source is scaled to
      that size and remembers it as its intended size. */
  method ScaleNative(v: Rect, hit: bool, dx: real, dy: real)
    requires v.kind == VideoKind
    requires v.vwidth != 0 && v.vheight != 0 && hit ==> v.aspect != 0.0
    modifies v`destScaleX, v`destScaleY, v`scaleX, v`scaleY, v`scaleAnimating
    modifies v`intendedWidth, v`intendedHeight, v`lastFillFull
    ensures v.vwidth == 0 || v.vheight == 0 || !hit ==> unchanged(v)
    ensures v.vwidth != 0 && v.vheight != 0 && hit ==>
              v.destScaleX == dx / v.aspect && v.destScaleY == dy &&
              v.intendedWidth == v.DestWidth() && v.intendedHeight == dy && v.lastFillFull
    ensures v.vwidth != 0 && v.vheight != 0 && hit && !v.animated ==>
              v.scaleX == v.destScaleX && v.scaleY == v.destScaleY && v.scaleAnimating == old(v.scaleAnimating)
    ensures v.vwidth != 0 && v.vheight != 0 && hit && v.animated ==>
              v.scaleX == old(v.scaleX) && v.scaleY == old(v.scaleY) && v.scaleAnimating
  {
    if v.vwidth == 0 || v.vheight == 0 {
      return;
    }
    if hit {
      v.SetScale(dx / v.aspect, dy);
      v.intendedWidth := v.DestWidth();
      v.intendedHeight := v.DestHeight();
      v.lastFillFull := true;
    }
  }

  /** The target aspect for a picture of the given size: width over height,
      or 1.33 when there is no height. */
  function AspectFor(width: int, height: int): (r: real)
    ensures height > 0 ==> r * height as real == width as real
    ensures height <= 0 ==> r == DefaultAspect
  {
    if height > 0 then width as real / height as real else DefaultAspect
  }

  // ---- the pixel count ----

  /** unsigned int arithmetic wraps modulo 2^32. */
  const UIntRange := 0x1_0000_0000

  /** vwidth * vheight, a product of two unsigned ints. */
  function PixelArea(w: int, h: int): (a: int)
    ensures 0 <= a < UIntRange
    ensures 0 <= w * h < UIntRange ==> a == w * h
  {
    (w * h) % UIntRange
  }

  /** What resizeBuffer and source_deleted pass to updatePixelCount(long) to
      give an area back, as written: -(vwidth * vheight) is negated in
      unsigned int arithmetic, so the long it is widened to is 2^32 minus
      the area (0 for no area) on LP64 platforms, where long is 64 bits
      wide; there it is never negative. */
  function AreaReleaseAsWritten(w: int, h: int): (d: int)
    ensures 0 <= d < UIntRange
    ensures (PixelArea(w, h) + d) % UIntRange == 0
  {
    (UIntRange - PixelArea(w, h)) % UIntRange
  }

  /** The change evidently intended when an area is given back: minus the
      area. */
  function AreaRelease(w: int, h: int): (d: int)
    ensures d <= 0 && PixelArea(w, h) + d == 0
  {
    -PixelArea(w, h)
  }

  /** As written, giving back any non-empty area adds 2^32 more to the
      count than intended: the count grows where it should shrink. */
  lemma ReleaseAsWrittenOvershoots(w: int, h: int)
    requires PixelArea(w, h) > 0
    ensures AreaReleaseAsWritten(w, h) == AreaRelease(w, h) + UIntRange
    ensures AreaReleaseAsWritten(w, h) > 0
  {
  }

  /** A 640x480 source: deleting it adds 4294660096 to the count instead of
      taking 307200 away. */
  lemma ReleaseAsWrittenExample()
    ensures PixelArea(640, 480) == 307200
    ensures AreaReleaseAsWritten(640, 480) == 4294660096
    ensures AreaRelease(640, 480) == -307200
  {
  }

  /** The pixel count after the picture, first of size first, is resized to
      each of sizes in turn, each resize giving back the old area and taking
      the new one. */
  function CountAfterResizes(count: int, first: (int, int), sizes: seq<(int, int)>): int
    decreases |sizes|
  {
    if |sizes| == 0 then count
    else CountAfterResizes(count + AreaRelease(first.0, first.1) + PixelArea(sizes[0].0, sizes[0].1),
                           sizes[0], sizes[1..])
  }

  /** However often the picture is resized, the count has given back the
      first area and holds exactly the last one. */
  lemma {:induction false} ResizesTrackArea(count: int, first: (int, int), sizes: seq<(int, int)>)
    requires |sizes| > 0
    ensures var last := sizes[|sizes| - 1];
            CountAfterResizes(count, first, sizes) == count - PixelArea(first.0, first.1) + PixelArea(last.0, last.1)
    decreases |sizes|
  {
    var next := count + AreaRelease(first.0, first.1) + PixelArea(sizes[0].0, sizes[0].1);
    if |sizes| > 1 {
      ResizesTrackArea(next, sizes[0], sizes[1..]);
      assert sizes[1..][|sizes[1..]| - 1] == sizes[|sizes| - 1];
    }
  }

  /** resizeBuffer's bookkeeping: the new picture size, the target aspect,
      and the aspect itself at once unless animated. Returns the two changes
      it makes to the listener's pixel count: the old area given back, then
      the new one taken. */
  method ResizeBuffer(v: Rect, width: nat, height: nat) returns (released: int, taken: int)
    requires v.kind == VideoKind
    modifies v`vwidth, v`vheight, v`destAspect, v`aspect, v`aspectAnimating
    ensures released == AreaRelease(old(v.vwidth), old(v.vheight)) && taken == PixelArea(width, height)
    ensures v.vwidth == width && v.vheight == height
    ensures v.destAspect == AspectFor(width, height)
    ensures v.animated ==> v.aspectAnimating && v.aspect == old(v.aspect)
    ensures !v.animated ==> v.aspect == v.destAspect && v.aspectAnimating == old(v.aspectAnimating)
  {
    released := AreaRelease(v.vwidth, v.vheight);
    v.vwidth, v.vheight := width, height;
    taken := PixelArea(v.vwidth, v.vheight);
    if v.vheight > 0 {
      v.destAspect := v.vwidth as real / v.vheight as real;
    } else {
      v.destAspect := DefaultAspect;
    }
    if v.animated {
      v.aspectAnimating := true;
    } else {
      v.aspect := v.destAspect;
    }
  }
}
