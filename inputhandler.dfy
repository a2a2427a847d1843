// Keyboard and mouse bookkeeping (src/InputHandler.cpp): key hashes that
// pack a key with its modifier bits, the table of shortcut handlers and
// their help texts, the lookup a key press makes, and the selection-list
// updates of select-all, invert-selection and the release of the left
// button. The handlers' own effects, other than the selection ones, belong
// to the window, the camera and the layouts and are not part of this model.
module InputHandler {
  import opened RectangleBase
  import opened Wrappers
  import Seqs
  import Objects

  // wxWidgets' modifier bits (wxMOD_CMD is the control key off macOS).
  const ModAlt: bv32 := 1
  const ModControl: bv32 := 2
  const ModShift: bv32 := 4
  const ModCmd: bv32 := ModControl

  /** ktoh: the key shifted four bits up, or-ed with the modifier bits. */
  function Ktoh(key: bv8, modifiers: bv32): (h: bv32)
  {
    ((key as bv32) << 4) | modifiers
  }

  /** htok: the byte above the four modifier bits. */
  function Htok(hash: bv32): (key: bv8)
  {
    ((hash >> 4) & 0xFF) as bv8
  }

  /** The key of a hash in the handler and help maps: its value as a
      (32-bit) int. */
  function Slot(key: bv8, modifiers: bv32): (slot: int)
    ensures 0 <= slot < 0x1_0000_0000
  {
    Ktoh(key, modifiers) as int
  }

  /** A key hashed with modifier bits below 16 gives back both the key
      and the modifiers, so two such key presses hash alike only when they
      are the same. */
  lemma HtokKtoh(key: bv8, m: bv32)
    requires m < 16
    ensures Htok(Ktoh(key, m)) == key && Ktoh(key, m) & 15 == m
  {
  }

  /** The modifier prefix htos writes: shift, alt, ctrl, in that order, each
      when its bit is set. */
  function ModifierText(hash: bv32): (s: string)
  {
    (if hash & ModShift != 0 then "shift + " else "") +
    (if hash & ModAlt != 0 then "alt + " else "") +
    (if hash & ModCmd != 0 then "ctrl + " else "")
  }

  /** The name htos gives a key: its registered name when it has one,
      else the character itself. */
  function KeyName(key: bv8, unprintables: map<int, string>): (s: string)
  {
    if key as int in unprintables then unprintables[key as int] else [(key as int) as char]
  }

  /** htos: the modifier prefix followed by the key's name. */
  function Htos(hash: bv32, unprintables: map<int, string>): (s: string)
  {
    ModifierText(hash) + KeyName(Htok(hash), unprintables)
  }

  /** The text of a hashed key press names exactly its modifiers and then
      its key. */
  lemma HtosOfKtoh(key: bv8, m: bv32, unprintables: map<int, string>)
    requires m < 16
    ensures Htos(Ktoh(key, m), unprintables) == ModifierText(m) + KeyName(key, unprintables)
    ensures Htos(Ktoh(key, m), unprintables)[..|ModifierText(m)|] == ModifierText(m)
    ensures key as int !in unprintables ==>
              |Htos(Ktoh(key, m), unprintables)| == |ModifierText(m)| + 1 &&
              Htos(Ktoh(key, m), unprintables)[|ModifierText(m)|] == (key as int) as char
  {
    HtokKtoh(key, m);
    assert Ktoh(key, m) & ModShift == m & ModShift;
    assert Ktoh(key, m) & ModAlt == m & ModAlt;
    assert Ktoh(key, m) & ModCmd == m & ModCmd;
  }

  // ---- the shortcut table ----

  datatype Handler =
    | Help | RearrangeGroups | UpdateGroupNames | ToggleGroupLocks | ToggleSiteGrouping
    | ToggleRenderingSelected | Quit | ToggleFullscreen | RunwayToggle
    | ToggleShowVenueClientController | SelectAll | InvertSelection | ClearSelected
    | DownscaleSelected | UpscaleSelected | FullscreenSelectedSingle
    | FullerFullscreenSelectedSingle | MuteSelected | NativeScaleSelected | NativeScaleAll
    | PerimeterArrange | GridArrange | FocusArrange | ToggleAutoFocusRotate | ToggleGraphicsDebug
    | AddTestObject | TryDeleteObject | PrintSelected | RandomTest | MoveAllToCenter
    | Information | StrafeLeft | StrafeRight | Zoomin | Zoomout | CameraReset

  /** The help text registered with each handler. */
  function Doc(h: Handler): string
  {
    match h
    case Help => "Print this help message to the commandline."
    case RearrangeGroups => "Rearrange groups."
    case UpdateGroupNames => "Update group names."
    case ToggleGroupLocks => "Toggle group locks."
    case ToggleSiteGrouping => "Toggle site grouping."
    case ToggleRenderingSelected => "Toggle rendering of selected objects."
    case Quit => "Quit."
    case ToggleFullscreen => "Toggle fullscreen."
    case RunwayToggle => "Toggle runway visibility."
    case ToggleShowVenueClientController => "Toggle venue client controller visibility."
    case SelectAll => "Select all."
    case InvertSelection => "Invert selection."
    case ClearSelected => "Clear selection."
    case DownscaleSelected => "Downscale selected objects."
    case UpscaleSelected => "Upscale selected objects."
    case FullscreenSelectedSingle => "Fullscreen selected object (includes border and text)."
    case FullerFullscreenSelectedSingle => "Fullscreen selected object (video/inner contents of object)."
    case MuteSelected => "Mute selected objects."
    case NativeScaleSelected => "Scale selected videos to native size."
    case NativeScaleAll => "Scale all videos to native size."
    case PerimeterArrange => "Arrange objects around the perimeter of the screen."
    case GridArrange => "Arrange objects into a grid."
    case FocusArrange => "Rearrange objects to focus on selected objects."
    case ToggleAutoFocusRotate => "Toggle 'automatic' mode (rotating focus)"
    case ToggleGraphicsDebug => "Toggle graphics debugging information."
    case AddTestObject => "[debug] Add a test window to the screen."
    case TryDeleteObject => "[debug] Delete selected deletable objects (test objects)"
    case PrintSelected => "[debug] Print information about selected windows."
    case RandomTest => "[debug] Print out randomly generated numbers."
    case MoveAllToCenter => "[debug] Move all objects to the center."
    case Information => "[debug] Print information about all objects."
    case StrafeLeft => "[debug] Strafe left."
    case StrafeRight => "[debug] Strafe right."
    case Zoomin => "[debug] Zoom in."
    case Zoomout => "[debug] Zoom out."
    case CameraReset => "[debug] Reset camera position."
  }

  /** One registration of the constructor: a key hash (as the maps'
      int key) and its handler; the help text registered with it is the
      handler's. */
  datatype Binding = Binding(slot: int, handler: Handler)

  /** The registrations every build makes, in the constructor's order. */
  function StandardBindings(): seq<Binding>
  {
    [ Binding(Slot(0x48, 0), Help),  // 'H'
      Binding(Slot(0x54, 0), RearrangeGroups),  // 'T'
      Binding(Slot(0x55, 0), UpdateGroupNames),  // 'U'
      Binding(Slot(0x4C, 0), ToggleGroupLocks),  // 'L'
      Binding(Slot(0x47, 0), ToggleSiteGrouping),  // 'G'
      Binding(Slot(0x58, 0), ToggleRenderingSelected),  // 'X'
      Binding(Slot(0x51, ModCmd), Quit),  // 'Q'
      Binding(Slot(27, 0), Quit),
      Binding(Slot(13, ModAlt), ToggleFullscreen),
      Binding(Slot(0x52, ModAlt), RunwayToggle),  // 'R'
      Binding(Slot(0x56, ModCmd), ToggleShowVenueClientController),  // 'V'
      Binding(Slot(0x41, ModCmd), SelectAll),  // 'A'
      Binding(Slot(0x49, ModCmd), InvertSelection),  // 'I'
      Binding(Slot(8, 0), ClearSelected),
      Binding(Slot(0x2D, 0), DownscaleSelected),  // '-'
      Binding(Slot(0x2B, 0), UpscaleSelected),  // '+'
      Binding(Slot(0x3D, 0), UpscaleSelected),  // '='
      Binding(Slot(0x46, ModShift), FullscreenSelectedSingle),  // 'F'
      Binding(Slot(0x46, ModShift | ModCmd), FullerFullscreenSelectedSingle),  // 'F'
      Binding(Slot(0x4D, 0), MuteSelected),  // 'M'
      Binding(Slot(0x4E, 0), NativeScaleSelected),  // 'N'
      Binding(Slot(0x4E, ModShift), NativeScaleAll),  // 'N'
      Binding(Slot(0x50, 0), PerimeterArrange),  // 'P'
      Binding(Slot(0x52, 0), GridArrange),  // 'R'
      Binding(Slot(0x46, 0), FocusArrange),  // 'F'
      Binding(Slot(0x41, ModAlt), ToggleAutoFocusRotate),  // 'A'
      Binding(Slot(0x44, ModShift | ModCmd), ToggleGraphicsDebug) ]  // 'D'
  }

  /** The registrations only a debug build makes, after those. */
  function DebugBindings(): seq<Binding>
  {
    [ Binding(Slot(0x20, 0), AddTestObject),  // ' '
      Binding(Slot(127, 0), TryDeleteObject),
      Binding(Slot(0x4B, 0), PrintSelected),  // 'K'
      Binding(Slot(0x4F, 0), RandomTest),  // 'O'
      Binding(Slot(0x30, 0), MoveAllToCenter),  // '0'
      Binding(Slot(0x49, 0), Information),  // 'I'
      Binding(Slot(0x41, 0), StrafeLeft),  // 'A'
      Binding(Slot(0x44, 0), StrafeRight),  // 'D'
      Binding(Slot(0x57, 0), Zoomin),  // 'W'
      Binding(Slot(0x53, 0), Zoomout),  // 'S'
      Binding(Slot(0x43, ModShift | ModCmd), CameraReset) ]  // 'C'
  }

  function Bindings(debug: bool): seq<Binding>
  {
    StandardBindings() + (if debug then DebugBindings() else [])
  }

  /** The handler map after making the registrations in order: a later
      registration of a key replaces an earlier one. */
  function LookupOf(bs: seq<Binding>): map<int, Handler>
  {
    if |bs| == 0 then map[] else LookupOf(bs[..|bs| - 1])[bs[|bs| - 1].slot := bs[|bs| - 1].handler]
  }

  /** The help-text map after the same registrations. */
  function DocsOf(bs: seq<Binding>): map<int, string>
  {
    if |bs| == 0 then map[] else DocsOf(bs[..|bs| - 1])[bs[|bs| - 1].slot := Doc(bs[|bs| - 1].handler)]
  }

  /** Every key with a handler has a help text and the other way round, and
      the help text shown for a key is that of the handler it runs. */
  lemma {:induction false} DocsAgree(bs: seq<Binding>)
    ensures LookupOf(bs).Keys == DocsOf(bs).Keys
    ensures forall k :: k in LookupOf(bs) ==> DocsOf(bs)[k] == Doc(LookupOf(bs)[k])
    decreases |bs|
  {
    if |bs| > 0 {
      DocsAgree(bs[..|bs| - 1]);
    }
  }

  /** The last registration of a key decides the handler it runs. */
  lemma {:induction false} LastRegistrationWins(bs: seq<Binding>, i: int)
    requires 0 <= i < |bs|
    requires forall j :: i < j < |bs| ==> bs[j].slot != bs[i].slot
    ensures bs[i].slot in LookupOf(bs) && LookupOf(bs)[bs[i].slot] == bs[i].handler
    decreases |bs|
  {
    if i < |bs| - 1 {
      LastRegistrationWins(bs[..|bs| - 1], i);
    }
  }

  /** A key never registered runs nothing. */
  lemma {:induction false} NeverRegistered(bs: seq<Binding>, k: int)
    requires forall b :: b in bs ==> b.slot != k
    ensures k !in LookupOf(bs)
    decreases |bs|
  {
    if |bs| > 0 {
      assert bs[|bs| - 1] in bs;
      NeverRegistered(bs[..|bs| - 1], k);
    }
  }

  /** The names of keys that have no printable character, by byte value. */
  function Unprintables(debug: bool): map<int, string>
  {
    map[27 := "(escape)", 13 := "(enter)", 8 := "(backspace)"] +
    (if debug then map[0x20 := "(space)", 127 := "(delete)"] else map[])
  }

  /** Control-A runs selectAll, in every build. */
  lemma CtrlABound(debug: bool)
    ensures var lookup := LookupOf(Bindings(debug));
            Slot(0x41, ModCmd) in lookup && lookup[Slot(0x41, ModCmd)] == SelectAll
  {
    LastRegistrationWins(Bindings(debug), 11);
  }

  /** Control-I runs invertSelection, in every build. */
  lemma CtrlIBound(debug: bool)
    ensures var lookup := LookupOf(Bindings(debug));
            Slot(0x49, ModCmd) in lookup && lookup[Slot(0x49, ModCmd)] == InvertSelection
  {
    LastRegistrationWins(Bindings(debug), 12);
  }

  /** Backspace runs clearSelected, in every build. */
  lemma BackspaceBound(debug: bool)
    ensures var lookup := LookupOf(Bindings(debug));
            Slot(8, 0) in lookup && lookup[Slot(8, 0)] == ClearSelected
  {
    LastRegistrationWins(Bindings(debug), 13);
  }

  /** Control-A selects all, control-I inverts the selection and backspace
      clears it, in every build. */
  lemma SelectionKeysBound(debug: bool)
    ensures var lookup := LookupOf(Bindings(debug));
            Slot(0x41, ModCmd) in lookup && lookup[Slot(0x41, ModCmd)] == SelectAll &&
            Slot(0x49, ModCmd) in lookup && lookup[Slot(0x49, ModCmd)] == InvertSelection &&
            Slot(8, 0) in lookup && lookup[Slot(8, 0)] == ClearSelected
  {
    CtrlABound(debug);
    CtrlIBound(debug);
    BackspaceBound(debug);
  }

  /** Control-Q runs quit, in every build. */
  lemma CtrlQBound(debug: bool)
    ensures var lookup := LookupOf(Bindings(debug));
            Slot(0x51, ModCmd) in lookup && lookup[Slot(0x51, ModCmd)] == Quit
  {
    LastRegistrationWins(Bindings(debug), 6);
  }

  /** Escape runs quit, in every build. */
  lemma EscapeBound(debug: bool)
    ensures var lookup := LookupOf(Bindings(debug));
            Slot(27, 0) in lookup && lookup[Slot(27, 0)] == Quit
  {
    LastRegistrationWins(Bindings(debug), 7);
  }

  /** Control-Q and escape quit, in every build. */
  lemma QuitKeysBound(debug: bool)
    ensures var lookup := LookupOf(Bindings(debug));
            Slot(0x51, ModCmd) in lookup && lookup[Slot(0x51, ModCmd)] == Quit &&
            Slot(27, 0) in lookup && lookup[Slot(27, 0)] == Quit
  {
    CtrlQBound(debug);
    EscapeBound(debug);
  }

  /** The space bar adds a test object in a debug build and runs nothing
      otherwise. */
  lemma SpaceBoundOnlyInDebug(debug: bool)
    ensures var lookup := LookupOf(Bindings(debug));
            (Slot(0x20, 0) in lookup <==> debug) &&
            (debug ==> lookup[Slot(0x20, 0)] == AddTestObject)
  {
    var bs := Bindings(debug);
    if debug {
      LastRegistrationWins(bs, |StandardBindings()|);
    } else {
      NeverRegistered(bs, Slot(0x20, 0));
    }
  }

  // ---- invert selection ----

  /** The selection after the first n objects of movs had their flags
      inverted in turn: one that was selected (flag set) leaves the list
      (its first occurrence), one that was not is appended. */
  function InvertedFirst(sel: seq<Rect>, movs: seq<Rect>, flags: seq<bool>, n: nat): seq<Rect>
    requires |flags| == |movs| && n <= |movs|
  {
    if n == 0 then sel
    else
      var cur := InvertedFirst(sel, movs, flags, n - 1);
      if flags[n - 1] then Seqs.RemoveFirst(cur, movs[n - 1]) else cur + [movs[n - 1]]
  }

  /** When the selection holds each object once and holds exactly the
      movable objects that are flagged selected, inverting leaves it holding
      each object once, a movable object in it exactly when its new flag is
      set, and every other object as before. */
  lemma {:induction false} InvertedMembership(sel: seq<Rect>, movs: seq<Rect>, flags: seq<bool>, n: nat)
    requires |flags| == |movs| && n <= |movs|
    requires Seqs.Distinct(movs) && Seqs.Distinct(sel)
    requires forall j :: 0 <= j < |movs| ==> (flags[j] <==> movs[j] in sel)
    ensures var r := InvertedFirst(sel, movs, flags, n);
            Seqs.Distinct(r) &&
            (forall j :: 0 <= j < n ==> (movs[j] in r <==> !flags[j])) &&
            (forall j :: n <= j < |movs| ==> (movs[j] in r <==> flags[j])) &&
            (forall o :: o !in movs ==> (o in r <==> o in sel))
    decreases n
  {
    if n > 0 {
      var i := n - 1;
      InvertedMembership(sel, movs, flags, i);
      var cur := InvertedFirst(sel, movs, flags, i);
      var o := movs[i];
      if flags[i] {
        Seqs.RemoveFirstDistinct(cur, o);
      } else {
        assert o !in cur;
      }
    }
  }

  /** Erasing one object from the selection keeps the later flagged
      objects in it, since they are other objects. */
  lemma StillFlagged(cur: seq<Rect>, movs: seq<Rect>, flags: seq<bool>, i: int)
    requires 0 <= i < |movs| == |flags| && Seqs.Distinct(movs)
    requires forall j :: i <= j < |movs| && flags[j] ==> movs[j] in cur
    ensures forall j :: i < j < |movs| && flags[j] ==> movs[j] in Seqs.RemoveFirst(cur, movs[i])
  {
    forall j | i < j < |movs| && flags[j]
      ensures movs[j] in Seqs.RemoveFirst(cur, movs[i])
    {
      Seqs.RemoveFirstKeepsOthers(cur, movs[i], movs[j]);
    }
  }

  class InputHandler {
    const objectMan: Objects.ObjectManager
    /** The handler each registered key hash runs. */
    const lookup: map<int, Handler>
    /** The help text of each registered key hash. */
    const docstr: map<int, string>
    /** The names htos prints for keys with no printable character. */
    const unprintables: map<int, string>
    var modifiers: bv32
    var tempSelectedObjects: seq<Rect>
    var leftButtonHeld: bool
    var dragging: bool

    /** InputHandler(...): no button held, no drag, no modifiers, and the
        shortcut table registered key by key, a debug build registering the
        debug keys as well. */
    constructor (o: Objects.ObjectManager, debug: bool)
      ensures objectMan == o && modifiers == 0 && tempSelectedObjects == []
      ensures !leftButtonHeld && !dragging
      ensures lookup == LookupOf(Bindings(debug)) && docstr == DocsOf(Bindings(debug))
      ensures unprintables == Unprintables(debug)
    {
      objectMan := o;
      modifiers := 0;
      tempSelectedObjects := [];
      leftButtonHeld, dragging := false, false;
      lookup, docstr := LookupOf(Bindings(debug)), DocsOf(Bindings(debug));
      unprintables := Unprintables(debug);
    }

    /** processKeyboard's lookup: the key code cut to a byte and hashed with
        the held modifiers picks the handler that runs, when one is
        registered; otherwise nothing runs (the miss is only logged). */
    method ProcessKeyboard(keyCode: int) returns (run: Option<Handler>)
      ensures var h := Slot((keyCode % 256) as bv8, modifiers);
              (run.Some? <==> h in lookup) && (run.Some? ==> run.value == lookup[h])
    {
      var key := (keyCode % 256) as bv8;
      var hash := Slot(key, modifiers);
      if hash in lookup {
        run := Some(lookup[hash]);
      } else {
        run := None;
      }
    }

    /** handleSelectAll: the selection is cleared, then every movable object
        is flagged selected and listed, in drawing order. */
    method HandleSelectAll()
      modifies objectMan`selectedObjects
      modifies objectMan.selectedObjects`selected, objectMan.selectedObjects`destBColor
      modifies objectMan.selectedObjects`borderColor, objectMan.selectedObjects`borderColAnimating
      modifies objectMan.drawnObjects`selected, objectMan.drawnObjects`destBColor
      modifies objectMan.drawnObjects`borderColor, objectMan.drawnObjects`borderColAnimating
      ensures objectMan.selectedObjects == old(Objects.Movable(objectMan.drawnObjects))
      ensures forall o :: o in objectMan.selectedObjects ==> SelectedAs(o, true)
      ensures forall o :: o in old(objectMan.selectedObjects) && o !in objectMan.selectedObjects ==> SelectedAs(o, false)
      ensures forall o :: o in objectMan.drawnObjects && o !in old(objectMan.selectedObjects) ==>
                (o !in objectMan.selectedObjects ==> Untouched(o))
    {
      var movable, cleared, before := StartSelectAll();
      SelectMovable(movable, cleared, before);
      SelectedAll(movable, cleared, before);
    }

    /** The part of handleSelectAll before its loop: the movable objects are
        listed and the selection is cleared. The looks of the old selection
        and of the drawn objects are taken first. */
    method StartSelectAll() returns (movable: seq<Rect>, ghost cleared: seq<Rect>, ghost before: map<Rect, Look>)
      modifies objectMan`selectedObjects
      modifies objectMan.selectedObjects`selected, objectMan.selectedObjects`destBColor
      modifies objectMan.selectedObjects`borderColor, objectMan.selectedObjects`borderColAnimating
      ensures movable == old(Objects.Movable(objectMan.drawnObjects)) && cleared == old(objectMan.selectedObjects)
      ensures forall o :: o in before ==> old(allocated(o)) && before[o] == old(LookOf(o))
      ensures SelectingAll(movable, 0, cleared, before)
    {
      movable := objectMan.GetMovableObjects();
      Objects.MovableExactly(objectMan.drawnObjects);
      cleared := objectMan.selectedObjects;
      before := map o | o in cleared || o in objectMan.drawnObjects :: LookOf(o);
      objectMan.ClearSelected();
      assert movable[..0] == [];
    }

    /** The loop's final state: every movable object is selected, the rest
        of the old selection unselected and every other drawn object as it
        was, against the looks before the loop's clearSelected. */
    lemma SelectedAll(movable: seq<Rect>, cleared: seq<Rect>, before: map<Rect, Look>)
      requires SelectingAll(movable, |movable|, cleared, before)
      ensures objectMan.selectedObjects == movable
      ensures forall o :: o in movable ==> o in before && SelectedSince(o, before[o], true)
      ensures forall o :: o in cleared && o !in movable ==> o in before && SelectedSince(o, before[o], false)
      ensures forall o :: o in objectMan.drawnObjects && o !in cleared && o !in movable ==>
                o in before && LookOf(o) == before[o]
    {
      assert movable[..|movable|] == movable;
    }

    /** handleSelectAll's loop over the movable objects. */
    method SelectMovable(movable: seq<Rect>, ghost cleared: seq<Rect>, ghost before: map<Rect, Look>)
      requires SelectingAll(movable, 0, cleared, before)
      modifies objectMan`selectedObjects
      modifies movable`selected, movable`destBColor, movable`borderColor, movable`borderColAnimating
      ensures SelectingAll(movable, |movable|, cleared, before)
    {
      var i := 0;
      while i < |movable|
        invariant SelectingAll(movable, i, cleared, before)
      {
        i := SelectNext(movable, i, cleared, before);
      }
    }

    /** The state of handleSelectAll's loop after its first i turns, against
        the looks before it began: the first i movable objects are selected
        and listed, the rest of the old selection is unselected, and every
        other drawn object is as it was. */
    ghost predicate SelectingAll(movable: seq<Rect>, i: int, cleared: seq<Rect>, before: map<Rect, Look>)
      reads this, objectMan, objectMan.drawnObjects, cleared
    {
      0 <= i <= |movable| && objectMan.selectedObjects == movable[..i] &&
      (forall o :: o in cleared ==> o in before) &&
      (forall o :: o in objectMan.drawnObjects ==> o in before) &&
      (forall j :: 0 <= j < |movable| ==> movable[j] in objectMan.drawnObjects) &&
      (forall j :: 0 <= j < i ==> SelectedSince(movable[j], before[movable[j]], true)) &&
      (forall o :: o in cleared && o !in movable[..i] ==> SelectedSince(o, before[o], false)) &&
      (forall o :: o in objectMan.drawnObjects && o !in cleared && o !in movable[..i] ==> LookOf(o) == before[o])
    }

    /** One turn of that loop: the next movable object is flagged selected
        and appended. */
    method SelectNext(movable: seq<Rect>, i: int, ghost cleared: seq<Rect>, ghost before: map<Rect, Look>)
      returns (next: int)
      requires i < |movable| && SelectingAll(movable, i, cleared, before)
      modifies objectMan`selectedObjects
      modifies {movable[i]}`selected, {movable[i]}`destBColor, {movable[i]}`borderColor, {movable[i]}`borderColAnimating
      ensures next == i + 1 && SelectingAll(movable, next, cleared, before)
    {
      var obj := movable[i];
      assert movable[..i + 1] == movable[..i] + [obj];
      assert KeptSince(obj, before[obj]);
      obj.SetSelect(true);
      objectMan.selectedObjects := objectMan.selectedObjects + [obj];
      next := i + 1;
    }

    /** handleInvertSelection: every movable object's flag is flipped in
        drawing order; a newly selected one is appended to the selection and
        a newly unselected one is erased from it (the source's search for it
        assumes it is there). Objects are drawn once each. */
    method HandleInvertSelection()
      requires Seqs.Distinct(objectMan.drawnObjects)
      requires forall o :: o in Objects.Movable(objectMan.drawnObjects) && o.selected ==> o in objectMan.selectedObjects
      modifies objectMan`selectedObjects
      modifies objectMan.drawnObjects`selected, objectMan.drawnObjects`destBColor
      modifies objectMan.drawnObjects`borderColor, objectMan.drawnObjects`borderColAnimating
      ensures var movs := old(Objects.Movable(objectMan.drawnObjects));
              objectMan.selectedObjects == InvertedFirst(old(objectMan.selectedObjects), movs, old(Objects.Flags(movs)), |movs|) &&
              forall j :: 0 <= j < |movs| ==> SelectedAs(movs[j], !old(movs[j].selected))
      ensures forall o :: o in objectMan.drawnObjects && o !in old(Objects.Movable(objectMan.drawnObjects)) ==> Untouched(o)
    {
      var movable, flags, sel0, before := StartInvert();
      InvertMovable(movable, flags, sel0, before);
      Inverted(movable, flags, sel0, before);
    }

    /** The part of handleInvertSelection before its loop: the movable
        objects are listed, and their flags, the selection and the looks of
        the drawn objects are noted. */
    method StartInvert() returns (movable: seq<Rect>, ghost flags: seq<bool>, ghost sel0: seq<Rect>,
                                  ghost before: map<Rect, Look>)
      requires Seqs.Distinct(objectMan.drawnObjects)
      requires forall o :: o in Objects.Movable(objectMan.drawnObjects) && o.selected ==> o in objectMan.selectedObjects
      ensures movable == Objects.Movable(objectMan.drawnObjects) && flags == Objects.Flags(movable)
      ensures sel0 == objectMan.selectedObjects
      ensures forall o :: o in before ==> before[o] == LookOf(o)
      ensures Inverting(movable, 0, flags, sel0, before)
    {
      movable := objectMan.GetMovableObjects();
      Objects.MovableExactly(objectMan.drawnObjects);
      Seqs.SelectDistinct(objectMan.drawnObjects, Objects.MovableSet(objectMan.drawnObjects));
      flags := Objects.Flags(movable);
      sel0 := objectMan.selectedObjects;
      before := map o | o in objectMan.drawnObjects :: LookOf(o);
      forall j | 0 <= j < |movable| && flags[j]
        ensures movable[j] in sel0
      {
        assert movable[j] in Objects.Movable(objectMan.drawnObjects) && movable[j].selected;
      }
    }

    /** handleInvertSelection's loop over the movable objects. */
    method InvertMovable(movable: seq<Rect>, ghost flags: seq<bool>, ghost sel0: seq<Rect>, ghost before: map<Rect, Look>)
      requires Inverting(movable, 0, flags, sel0, before)
      modifies objectMan`selectedObjects
      modifies movable`selected, movable`destBColor, movable`borderColor, movable`borderColAnimating
      ensures Inverting(movable, |movable|, flags, sel0, before)
    {
      var i := 0;
      while i < |movable|
        invariant Inverting(movable, i, flags, sel0, before)
      {
        i := InvertNext(movable, i, flags, sel0, before);
      }
    }

    /** The state of handleInvertSelection's loop after its first i turns,
        against the looks before it began: the selection is InvertedFirst of
        i objects, and the later flagged ones are still listed; the looks are
        as InvertedLooks says. */
    ghost predicate Inverting(movable: seq<Rect>, i: int, flags: seq<bool>, sel0: seq<Rect>, before: map<Rect, Look>)
      reads this, objectMan, objectMan.drawnObjects
    {
      InvertedLooks(objectMan.drawnObjects, movable, i, flags, before) &&
      objectMan.selectedObjects == InvertedFirst(sel0, movable, flags, i) &&
      (forall j :: i <= j < |movable| && flags[j] ==> movable[j] in objectMan.selectedObjects)
    }

    /** The looks after the first i turns: those i movable objects have
        their flags flipped, the later ones are as they were, and every
        drawn object that is not movable is as it was. */
    ghost predicate InvertedLooks(drawn: seq<Rect>, movable: seq<Rect>, i: int, flags: seq<bool>, before: map<Rect, Look>)
      reads drawn
    {
      0 <= i <= |movable| == |flags| && Seqs.Distinct(movable) &&
      (forall o :: o in drawn ==> o in before) &&
      (forall j :: 0 <= j < |movable| ==> movable[j] in drawn) &&
      (forall j :: 0 <= j < |movable| ==> flags[j] == before[movable[j]].selected) &&
      (forall j :: 0 <= j < i ==> SelectedSince(movable[j], before[movable[j]], !flags[j])) &&
      (forall j :: i <= j < |movable| ==> LookOf(movable[j]) == before[movable[j]]) &&
      (forall o :: o in drawn && o !in movable ==> LookOf(o) == before[o])
    }

    /** One turn of that loop: the next movable object's flag flips, and it
        joins or leaves the selection accordingly. */
    method InvertNext(movable: seq<Rect>, i: int, ghost flags: seq<bool>, ghost sel0: seq<Rect>, ghost before: map<Rect, Look>)
      returns (next: int)
      requires i < |movable| && Inverting(movable, i, flags, sel0, before)
      modifies objectMan`selectedObjects
      modifies {movable[i]}`selected, {movable[i]}`destBColor, {movable[i]}`borderColor, {movable[i]}`borderColAnimating
      ensures next == i + 1 && Inverting(movable, next, flags, sel0, before)
    {
      var obj := movable[i];
      var cur := objectMan.selectedObjects;
      ghost var target := InvertedFirst(sel0, movable, flags, i + 1);
      assert target == if flags[i] then Seqs.RemoveFirst(cur, obj) else cur + [obj];
      FlipNext(objectMan.drawnObjects, movable, i, flags, before);
      if obj.selected {
        objectMan.selectedObjects := cur + [obj];
      } else {
        objectMan.selectedObjects := Seqs.Erase(cur, obj);
        StillFlagged(cur, movable, flags, i);
      }
      next := i + 1;
    }

    /** The setSelect call of that turn. */
    method FlipNext(drawn: seq<Rect>, movable: seq<Rect>, i: int, ghost flags: seq<bool>, ghost before: map<Rect, Look>)
      requires i < |movable| && InvertedLooks(drawn, movable, i, flags, before)
      modifies {movable[i]}`selected, {movable[i]}`destBColor, {movable[i]}`borderColor, {movable[i]}`borderColAnimating
      ensures InvertedLooks(drawn, movable, i + 1, flags, before) && movable[i].selected == !flags[i]
    {
      var obj := movable[i];
      assert LookOf(obj) == before[obj];
      obj.SetSelect(!obj.selected);
    }

    /** The loop's final state: the selection is InvertedFirst of every
        movable object, each has its flag flipped, and every other drawn
        object is as it was, against the looks before the loop. */
    lemma Inverted(movable: seq<Rect>, flags: seq<bool>, sel0: seq<Rect>, before: map<Rect, Look>)
      requires Inverting(movable, |movable|, flags, sel0, before)
      ensures objectMan.selectedObjects == InvertedFirst(sel0, movable, flags, |movable|)
      ensures forall j :: 0 <= j < |movable| ==>
                movable[j] in before && SelectedSince(movable[j], before[movable[j]], !before[movable[j]].selected)
      ensures forall o :: o in objectMan.drawnObjects && o !in movable ==> o in before && LookOf(o) == before[o]
    {
    }

    /** leftRelease: the objects picked by the box selection join the
        selection in order and the temporary list empties; the button is
        up and no drag goes on. A drag held for more than five frames ends
        by clearing the selection. */
    method LeftRelease()
      modifies this`tempSelectedObjects, this`leftButtonHeld, this`dragging, objectMan`selectedObjects
      modifies objectMan.selectedObjects`selected, objectMan.selectedObjects`destBColor
      modifies objectMan.selectedObjects`borderColor, objectMan.selectedObjects`borderColAnimating
      modifies tempSelectedObjects`selected, tempSelectedObjects`destBColor
      modifies tempSelectedObjects`borderColor, tempSelectedObjects`borderColAnimating
      ensures tempSelectedObjects == [] && !leftButtonHeld && !dragging
      ensures old(dragging) && objectMan.holdCounter > 5 ==>
                objectMan.selectedObjects == [] &&
                forall o :: o in old(objectMan.selectedObjects) + old(tempSelectedObjects) ==> !o.selected
      ensures old(dragging) && objectMan.holdCounter > 5 ==>
                forall o :: o in old(objectMan.selectedObjects) + old(tempSelectedObjects) ==> SelectedAs(o, false)
      ensures !(old(dragging) && objectMan.holdCounter > 5) ==>
                objectMan.selectedObjects == old(objectMan.selectedObjects) + old(tempSelectedObjects)
      ensures !(old(dragging) && objectMan.holdCounter > 5) ==>
                forall o :: o in old(objectMan.selectedObjects) + old(tempSelectedObjects) ==> Untouched(o)
    {
      var temp := tempSelectedObjects;
      ghost var before := map o | o in objectMan.selectedObjects + temp :: LookOf(o);
      var i := 0;
      while i < |temp|
        modifies objectMan`selectedObjects
        invariant 0 <= i <= |temp|
        invariant objectMan.selectedObjects == old(objectMan.selectedObjects) + temp[..i]
        invariant tempSelectedObjects == temp && dragging == old(dragging)
      {
        assert temp[..i + 1] == temp[..i] + [temp[i]];
        objectMan.selectedObjects := objectMan.selectedObjects + [temp[i]];
        i := i + 1;
      }
      assert temp[..i] == temp;
      tempSelectedObjects := [];
      leftButtonHeld := false;
      if dragging && objectMan.holdCounter > 5 {
        assert forall o :: o in objectMan.selectedObjects ==> o in before && LookOf(o) == before[o];
        objectMan.ClearSelected();
        assert forall o :: o in before ==> SelectedSince(o, before[o], false);
      }
      dragging := false;
    }
  }
}
