// The per-object state shared by every scene object: position and scale with
// their animation targets, colours, selection and lock flags, naming, and
// group membership. The program's object hierarchy (plain rectangles, groups,
// the runway and video sources) is one class here, tagged by kind; the
// members that only groups or only video sources use are fields of the same
// class and are changed by the Group, Runway and VideoSource modules.
// Positions and scales are exact reals (float rounding is not modelled).
module RectangleBase {
  import opened Wrappers

  datatype Kind = Plain | GroupKind | RunwayKind | VideoKind

  datatype Color = Color(r: real, g: real, b: real, a: real)

  /** The default border colour. */
  const OriginalColor := Color(1.0, 1.0, 1.0, 0.7)
  /** The border colour of a selected object. */
  const SelectColor := Color(1.0, 1.0, 0.0, 0.8)
  const ClearColor := Color(0.0, 0.0, 0.0, 0.0)

  /** The location every object starts at, as latitude and longitude. */
  const DefaultLat := 43.165556
  const DefaultLon := -77.611389

  /** How a group lays out its members. */
  datatype ArrangeStyle = Aspect | OneRow | OneColumn

  /** A substring of the text, as std::string::substr takes it: from pos,
      count characters, clamped to the end (a negative count converts to a
      huge unsigned count and so reaches the end). */
  function Substr(s: string, pos: int, count: int): (r: string)
    requires 0 <= pos <= |s|
    ensures count >= 0 && pos + count <= |s| ==> r == s[pos..pos + count]
    ensures count < 0 || pos + count > |s| ==> r == s[pos..]
  {
    if count < 0 || pos + count > |s| then s[pos..] else s[pos..pos + count]
  }

  class Rect {
    var kind: Kind

    // position and scale: current (x, y, scaleX, scaleY) and destination
    var x: real
    var y: real
    var destX: real
    var destY: real
    var scaleX: real
    var scaleY: real
    var destScaleX: real
    var destScaleY: real

    // colours: visible border colour, its target, and the unselected base
    var borderColor: Color
    var destBColor: Color
    var baseBColor: Color
    var secondaryColor: Color
    var destSecondaryColor: Color

    // flags
    var selected: bool
    var selectable: bool
    var userMovable: bool
    var userDeletable: bool
    var showLockStatus: bool
    var locked: bool
    var enableRendering: bool

    // animation
    var animated: bool
    var positionAnimating: bool
    var scaleAnimating: bool
    var borderColAnimating: bool
    var secondColAnimating: bool

    // naming: the displayed part of the name is [nameStart, nameEnd), or up
    // to cutoffPos when the text renderer has cut it short
    var name: string
    var altName: string
    var siteID: string
    var finalName: bool
    var nameStart: int
    var nameEnd: int
    var cutoffPos: int

    var group: Rect?
    var lat: real
    var lon: real
    var intendedWidth: real
    var intendedHeight: real
    var lastFillFull: bool

    // used by groups and the runway
    var members: seq<Rect>
    var rearrangeStyle: ArrangeStyle
    var preserveChildAspect: bool
    /** The member lists this group has laid out, oldest first (where the
        layout puts them is not modelled). */
    ghost var rearranged: seq<seq<Rect>>

    // used by video sources
    var session: int
    var ssrc: int
    var vwidth: int
    var vheight: int
    var aspect: real
    var destAspect: real
    var aspectAnimating: bool

    /** RectangleBase(x, y): the defaults, a start position of (-15, 15), then
        a move to (x, y), which animates since objects start animated. */
    constructor (x0: real, y0: real)
      ensures kind == Plain && members == [] && group == null && rearranged == []
      ensures Defaults()
      ensures x == -15.0 && y == 15.0 && destX == x0 && destY == y0 && positionAnimating
    {
      kind := Plain;
      x, y := -15.0, 15.0;
      destX, destY := 0.0, 0.0;
      scaleX, scaleY, destScaleX, destScaleY := 5.0, 5.0, 5.0, 5.0;
      baseBColor, destBColor, borderColor := OriginalColor, OriginalColor, OriginalColor;
      destSecondaryColor, secondaryColor := ClearColor, ClearColor;
      selected, selectable, userMovable, userDeletable := false, true, true, false;
      showLockStatus, locked, enableRendering := false, false, true;
      animated, positionAnimating, scaleAnimating := true, false, false;
      borderColAnimating, secondColAnimating := false, false;
      name, altName, siteID := "", "", "";
      finalName, nameStart, nameEnd, cutoffPos := false, -1, -1, -1;
      group := null;
      lat, lon := DefaultLat, DefaultLon;
      intendedWidth, intendedHeight, lastFillFull := 0.0, 0.0, false;
      members, rearrangeStyle, preserveChildAspect := [], OneColumn, false;
      rearranged := [];
      session, ssrc, vwidth, vheight := 0, 0, 0, 0;
      aspect, destAspect, aspectAnimating := 1.0, 1.0, false;
      new;
      Move(x0, y0);
    }

    /** The state setDefaults leaves: unselected, selectable, user-movable,
        not user-deletable, unlocked, ungrouped, no substring and no cutoff,
        default scale and colours, animated. */
    ghost predicate Defaults()
      reads this
    {
      !selected && selectable && userMovable && !userDeletable &&
      !locked && !showLockStatus && group == null &&
      nameStart == -1 && nameEnd == -1 && cutoffPos == -1 &&
      name == "" && altName == "" && siteID == "" && !finalName &&
      lat == DefaultLat && lon == DefaultLon &&
      scaleX == 5.0 && scaleY == 5.0 && destScaleX == 5.0 && destScaleY == 5.0 &&
      baseBColor == OriginalColor && borderColor == OriginalColor && destBColor == OriginalColor &&
      enableRendering && animated && !scaleAnimating && !borderColAnimating
    }

    predicate IsGroup()
      reads this
    {
      kind == GroupKind || kind == RunwayKind
    }

    /** isGrouped: exactly when the object has a group. */
    predicate IsGrouped()
      reads this
    {
      group != null
    }

    // ---- sizes (video sources widen by their aspect ratio) ----

    function Width(): real
      reads this
    {
      if kind == VideoKind then aspect * scaleX else scaleX
    }

    function Height(): real
      reads this
    {
      scaleY
    }

    function DestWidth(): real
      reads this
    {
      if kind == VideoKind then destAspect * destScaleX else destScaleX
    }

    function DestHeight(): real
      reads this
    {
      destScaleY
    }

    // ---- destination bounds ----

    function LBound(): real reads this { destX - DestWidth() / 2.0 }
    function RBound(): real reads this { destX + DestWidth() / 2.0 }
    function UBound(): real reads this { destY + DestHeight() / 2.0 }
    function DBound(): real reads this { destY - DestHeight() / 2.0 }

    // ---- movement ----

    /** move: set the destination; jump there at once when not animated,
        otherwise start the position animation. */
    method Move(nx: real, ny: real)
      modifies this`destX, this`destY, this`x, this`y, this`positionAnimating
      ensures destX == nx && destY == ny
      ensures !animated ==> x == nx && y == ny && positionAnimating == old(positionAnimating)
      ensures animated ==> x == old(x) && y == old(y) && positionAnimating
    {
      destX, destY := nx, ny;
      if !animated {
        x, y := nx, ny;
      } else {
        positionAnimating := true;
      }
    }

    /** setPos: current and destination position become the same point. */
    method SetPos(nx: real, ny: real)
      modifies this`destX, this`destY, this`x, this`y
      ensures destX == nx && x == nx && destY == ny && y == ny
    {
      destX, x := nx, nx;
      destY, y := ny, ny;
    }

    /** setScale: the same rule as move, for the scale. */
    method SetScale(xs: real, ys: real)
      modifies this`destScaleX, this`destScaleY, this`scaleX, this`scaleY, this`scaleAnimating
      ensures destScaleX == xs && destScaleY == ys
      ensures !animated ==> scaleX == xs && scaleY == ys && scaleAnimating == old(scaleAnimating)
      ensures animated ==> scaleX == old(scaleX) && scaleY == old(scaleY) && scaleAnimating
    {
      destScaleX, destScaleY := xs, ys;
      if !animated {
        scaleX, scaleY := xs, ys;
      } else {
        scaleAnimating := true;
      }
    }

    /** setWidth (video sources override it to account for their aspect):
        the destination width becomes w and the ratio destScaleX/destScaleY
        is kept. */
    method SetWidth(w: real)
      requires destScaleX != 0.0 && (kind == VideoKind ==> destAspect != 0.0)
      modifies this`destScaleX, this`destScaleY, this`scaleX, this`scaleY, this`scaleAnimating
      ensures DestWidth() == w
      ensures destScaleX * old(destScaleY) == destScaleY * old(destScaleX)
      ensures !animated ==> scaleX == destScaleX && scaleY == destScaleY && scaleAnimating == old(scaleAnimating)
      ensures animated ==> scaleX == old(scaleX) && scaleY == old(scaleY) && scaleAnimating
    {
      if kind == VideoKind {
        SetScale(w / destAspect, destScaleY * (w / (destScaleX * destAspect)));
      } else {
        SetScale(w, destScaleY * w / destScaleX);
      }
    }

    /** setHeight: the destination height becomes h and the ratio
        destScaleX/destScaleY is kept. */
    method SetHeight(h: real)
      requires destScaleY != 0.0
      modifies this`destScaleX, this`destScaleY, this`scaleX, this`scaleY, this`scaleAnimating
      ensures DestHeight() == h
      ensures destScaleX * old(destScaleY) == destScaleY * old(destScaleX)
      ensures !animated ==> scaleX == destScaleX && scaleY == destScaleY && scaleAnimating == old(scaleAnimating)
      ensures animated ==> scaleX == old(scaleX) && scaleY == old(scaleY) && scaleAnimating
    {
      if kind == VideoKind {
        SetScale(destScaleX * (h / destScaleY), h);
      } else {
        SetScale(destScaleX * h / destScaleY, h);
      }
    }

    // ---- naming ----

    /** getSubName: the whole name unless both substring bounds are set; then
        the part from nameStart to the cutoff if there is one, else to
        nameEnd. A start outside the name (a negative one converts to a huge
        unsigned position) makes substr throw out_of_range: None. */
    function SubName(): (r: Option<string>)
      reads this
      ensures nameStart == -1 || nameEnd == -1 ==> r == Some(name)
      ensures nameStart != -1 && nameEnd != -1 ==>
                (r.None? <==> !(0 <= nameStart <= |name|)) &&
                (r.Some? ==>
                   var stop := if cutoffPos == -1 then nameEnd else cutoffPos;
                   r.value == name[nameStart..if nameStart <= stop <= |name| then stop else |name|])
    {
      if nameStart != -1 && nameEnd != -1 then
        if !(0 <= nameStart <= |name|) then None
        else if cutoffPos == -1 then Some(Substr(name, nameStart, nameEnd - nameStart))
        else Some(Substr(name, nameStart, cutoffPos - nameStart))
      else Some(name)
    }

    /** setSubstring: the displayed part of the name. */
    method SetSubstring(start: int, end: int)
      modifies this`nameStart, this`nameEnd
      ensures nameStart == start && nameEnd == end
    {
      nameStart, nameEnd := start, end;
    }

    /** setGroup. (Leaving a group also re-reads a video source's SDES
        names; that refresh is not part of this model.) */
    method SetGroup(g: Rect?)
      modifies this`group
      ensures group == g
    {
      group := g;
    }

    // ---- colour and selection ----

    /** setColor: the border colour target; visible at once when not animated. */
    method SetColor(c: Color)
      modifies this`destBColor, this`borderColor, this`borderColAnimating
      ensures destBColor == c
      ensures !animated ==> borderColor == c && borderColAnimating == old(borderColAnimating)
      ensures animated ==> borderColor == old(borderColor) && borderColAnimating
    {
      destBColor := c;
      if !animated {
        borderColor := destBColor;
      } else {
        borderColAnimating := true;
      }
    }

    method SetSecondaryColor(c: Color)
      modifies this`destSecondaryColor, this`secondaryColor, this`secondColAnimating
      ensures destSecondaryColor == c
      ensures !animated ==> secondaryColor == c && secondColAnimating == old(secondColAnimating)
      ensures animated ==> secondaryColor == old(secondaryColor) && secondColAnimating
    {
      destSecondaryColor := c;
      if !animated {
        secondaryColor := destSecondaryColor;
      } else {
        secondColAnimating := true;
      }
    }

    /** setSelect: the flag, and the selection colour or the base colour. */
    method SetSelect(s: bool)
      modifies this`selected, this`destBColor, this`borderColor, this`borderColAnimating
      ensures selected == s
      ensures destBColor == if s then SelectColor else old(baseBColor)
      ensures !animated ==> borderColor == destBColor && borderColAnimating == old(borderColAnimating)
      ensures animated ==> borderColor == old(borderColor) && borderColAnimating
    {
      selected := s;
      if s {
        SetColor(SelectColor);
      } else {
        SetColor(baseBColor);
      }
    }

    /** resetColor: the base colour returns to the default; the visible
        colour follows only when the object is not selected. */
    method ResetColor()
      modifies this`baseBColor, this`destBColor, this`borderColor, this`borderColAnimating
      ensures baseBColor == OriginalColor
      ensures !selected ==> destBColor == OriginalColor
      ensures !selected && !animated ==> borderColor == OriginalColor && borderColAnimating == old(borderColAnimating)
      ensures !selected && animated ==> borderColor == old(borderColor) && borderColAnimating
      ensures selected ==> destBColor == old(destBColor) && borderColor == old(borderColor)
                           && borderColAnimating == old(borderColAnimating)
    {
      baseBColor := OriginalColor;
      if !selected {
        SetColor(OriginalColor);
      }
    }

    /** changeLock: toggle the lock. */
    method ChangeLock()
      modifies this`locked
      ensures locked == !old(locked)
    {
      locked := !locked;
    }

    /** setRendering of a plain object. */
    method SetRendering(r: bool)
      modifies this`enableRendering
      ensures enableRendering == r
    {
      enableRendering := r;
    }

    // ---- intersection, on current position and size ----

    function Left(): real reads this { x - Width() / 2.0 }
    function Right(): real reads this { x + Width() / 2.0 }
    function Bottom(): real reads this { y - Height() / 2.0 }
    function Top(): real reads this { y + Height() / 2.0 }

    /** intersect(L, R, U, D) against the current box. */
    predicate Intersect(l: real, r: real, u: real, d: real)
      reads this
    {
      !(l > Right() || r < Left() || d > Top() || u < Bottom())
    }

    /** intersect(other): the other object's current box as the query. */
    predicate IntersectRect(other: Rect)
      reads this, other
    {
      Intersect(other.Left(), other.Right(), other.Top(), other.Bottom())
    }
  }

  // ---- the selection state since an earlier state ----

  /** The fields setSelect reads or writes, as they were at some moment. */
  datatype Look = Look(selected: bool, baseBColor: Color, destBColor: Color, borderColor: Color,
                       borderColAnimating: bool)

  function LookOf(o: Rect): Look
    reads o
  {
    Look(o.selected, o.baseBColor, o.destBColor, o.borderColor, o.borderColAnimating)
  }

  /** Since the look l, calls of setColor kept the visible border colour
      when animated, and the animation flag when not. */
  predicate KeptSince(o: Rect, l: Look)
    reads o
  {
    (o.animated ==> o.borderColor == l.borderColor) &&
    (!o.animated ==> o.borderColAnimating == l.borderColAnimating)
  }

  /** What setSelect(s) leaves, however many setSelect calls came before it
      since the look l: the flag, the selection colour or the base colour
      as the target, and that target shown as setColor shows it (at once
      when not animated, otherwise kept with its animation started). */
  predicate SelectedSince(o: Rect, l: Look, s: bool)
    reads o
  {
    o.selected == s && o.destBColor == (if s then SelectColor else l.baseBColor) && KeptSince(o, l) &&
    (o.animated ==> o.borderColAnimating) && (!o.animated ==> o.borderColor == o.destBColor)
  }

  /** KeptSince, measured from the earlier state. */
  twostate predicate ColourKept(o: Rect)
    reads o
  {
    KeptSince(o, old(LookOf(o)))
  }

  /** SelectedSince, measured from the earlier state. */
  twostate predicate SelectedAs(o: Rect, s: bool)
    reads o
  {
    SelectedSince(o, old(LookOf(o)), s)
  }

  /** No setSelect call touched the object since the earlier state. */
  twostate predicate Untouched(o: Rect)
    reads o
  {
    LookOf(o) == old(LookOf(o))
  }

  /** An object that has left its group: no group and no substring. */
  predicate Released(m: Rect)
    reads m
  {
    m.group == null && m.nameStart == -1 && m.nameEnd == -1
  }

  /** The names of a list of objects, in list order. */
  function Names(ms: seq<Rect>): (r: seq<string>)
    reads ms
    ensures |r| == |ms| && forall k :: 0 <= k < |ms| ==> r[k] == ms[k].name
  {
    seq(|ms|, k requires 0 <= k < |ms| reads ms => ms[k].name)
  }

  predicate InBox(px: real, py: real, l: real, r: real, d: real, u: real)
  {
    l <= px <= r && d <= py <= u
  }

  /** A query box that is a proper box (left <= right, bottom <= top) meets
      an object of non-negative size exactly when the two closed boxes share
      a point. */
  lemma IntersectMeansCommonPoint(o: Rect, l: real, r: real, u: real, d: real)
    requires l <= r && d <= u && o.Width() >= 0.0 && o.Height() >= 0.0
    ensures o.Intersect(l, r, u, d) <==>
            exists px, py :: InBox(px, py, l, r, d, u) && InBox(px, py, o.Left(), o.Right(), o.Bottom(), o.Top())
  {
    if o.Intersect(l, r, u, d) {
      var px := if l > o.Left() then l else o.Left();
      var py := if d > o.Bottom() then d else o.Bottom();
      assert InBox(px, py, l, r, d, u) && InBox(px, py, o.Left(), o.Right(), o.Bottom(), o.Top());
    }
  }

  /** intersect(other) does not depend on which of the two asks. */
  lemma IntersectSymmetric(a: Rect, b: Rect)
    ensures a.IntersectRect(b) == b.IntersectRect(a)
  {
  }

  /** The destination bounds are centred on the destination and span the
      destination size. */
  lemma BoundsCentred(o: Rect)
    ensures o.RBound() - o.LBound() == o.DestWidth()
    ensures o.UBound() - o.DBound() == o.DestHeight()
    ensures (o.LBound() + o.RBound()) / 2.0 == o.destX && (o.DBound() + o.UBound()) / 2.0 == o.destY
  {
  }

}
