# grav: a verified model of the scene and session core

grav is a video-conferencing viewer. It receives RTP video and audio
streams, draws each video source as a movable rectangle, and lets the
user select, group, arrange and focus those rectangles. This project
models the core of that program in Dafny and proves properties of the
model. The modules follow the program's files:

- `Objects` (`src/ObjectManager.cpp`) keeps the scene's lists:
  - the drawing order;
  - the selection;
  - the video sources and the focused session's objects;
  - the site-ID groups;
  - the queues for delayed deletion and for the session tree.

  It adds and deletes sources, ungroups site groups, raises objects to the
  top, and records which layout each automatic mode asks for.
- `RectangleBase` (`src/RectangleBase.cpp`) holds every object's state:
  - position and scale with their animation targets;
  - colours, selection and lock;
  - the name and its displayed substring;
  - its group.

  Groups, the runway and video sources are the same class, told apart by
  a `kind`.
- `Group` (`src/Group.cpp`) covers membership, the naming rule (the group
  takes the common start of its members' names), the grid options of a
  rearrangement, and moving members with the group.
- `Runway` (`src/Runway.cpp`) is the group that holds new sources. It lets
  go of the members the user drags out.
- `LayoutManager` (`src/LayoutManager.cpp`) covers:
  - the option strings and their conversions;
  - dispatch on the layout name;
  - the grid's dimension choice and its failure conditions;
  - the perimeter split;
  - the focus layouts.
- `VideoSource` (`src/VideoSource.cpp`) covers SDES naming, the location
  item, rendering colours, the native-size guard, and the aspect and
  pixel-area bookkeeping of a resize.
- `VideoListener` (`src/VideoListener.cpp`) handles a video stream's
  creation, deletion and "site" APP packet, and the placement grid for
  new sources.
- `AudioManager` (`src/AudioManager.cpp`) keeps the audio streams and
  reads the level averaged over the streams of a site or CNAME.
- `SessionManager` (`src/SessionManager.cpp`) holds the session table,
  the per-session flags, the rotation of video sessions, and the 32-bit
  timestamps.
- `InputHandler` (`src/InputHandler.cpp`) covers:
  - key hashing;
  - the shortcut table and its help texts;
  - the key lookup;
  - the selection updates of select-all, invert-selection and the
    left-button release.
- `GLUtil` (`include/GLUtil.h`) is pow2, which rounds up to a power of
  two.
- `GravUtil` (`src/gravUtil.cpp`) is the resource search path and the
  version string.
- `Timers` (`src/Timers.cpp`) is the render timer's microsecond interval
  and the rotate timer's period.
- The Python side:
  - `AGTools` (`py/AGTools.py`) is the Access Grid venue helpers;
  - `GravEntry` (`py/gravEntry.py`, `py/entry.py`) is the interpreter
    entry point;
  - `PyTest` (`py/test.py`) and `TestFunctions` (`py/testFunctions.py`)
    are the result-conversion tests.
- `Seqs`, `Text` and `Wrappers` are shared helpers:
  - `Seqs` models std::find and vector::erase on sequences;
  - `Text` holds decimal text, split and join, and std::string order.

Things outside the program's own logic are parameters of the model:

- the media library's callbacks and SDES items;
- the clock;
- random colours;
- file existence;
- remote Access Grid calls;
- the Python import.

## Model

| member | source | states |
|---|---|---|
| Objects.ObjectManager.constructor | src/ObjectManager.cpp:58-135 | The lists are empty except that the runway is drawn. The counters are zero, the runway is on and the automatic modes are off. |
| Objects.MovableExactly | src/ObjectManager.cpp:1037-1049 | getMovableObjects lists exactly the ungrouped, user-movable objects: none is missing and none is extra. |
| Objects.ObjectManager.GetMovableObjects | src/ObjectManager.cpp:1037-1049 | Its loop returns the movable objects in drawing order. |
| Objects.Unselected | src/ObjectManager.cpp:1051-1064 | It returns exactly the movable objects that are not selected. |
| Objects.ObjectManager.GetUnselectedObjects | src/ObjectManager.cpp:1051-1064 | Its loop returns those objects in drawing order. |
| Objects.MovedToTop | src/ObjectManager.cpp:620-670 | Raising an object keeps the same objects (as a multiset). An object that is not drawn changes nothing. A plain object is erased and pushed to the back. |
| Objects.ObjectManager.RaiseObject | src/ObjectManager.cpp:620-638 | moveToTop(object) of a plain object moves it to the back of the drawing list. |
| Objects.ObjectManager.RaiseAt | src/ObjectManager.cpp:644-670 | moveToTop(iterator) raises the entry and then each member of a group, which gives MovedToTop. |
| Objects.ObjectManager.RaiseMembers | src/ObjectManager.cpp:659-667 | The member loop raises each member in turn. |
| Objects.ObjectManager.MoveToTop | src/ObjectManager.cpp:620-638 | An object that is not drawn changes nothing. Otherwise its top group (with checkGrouping) or the object itself is raised. |
| Objects.ObjectManager.ClearSelected | src/ObjectManager.cpp:528-534 | The selection empties. Every object that was in it is unflagged and headed for its base colour (SelectedAs false). A non-animated object shows that colour at once and keeps its animation flag. An animated one keeps its shown colour and starts animating. |
| Objects.ObjectManager.RemoveFromLists | src/ObjectManager.cpp:1234-1264 | The first occurrence leaves the drawing and focus lists. It leaves the selection only when flagged selected. A tree removal is queued only with a tree. The delete queue is untouched. |
| Objects.ObjectManager.AddNewSource | src/ObjectManager.cpp:1066-1152 | A null source changes nothing. Otherwise the source is appended to the sources and to the drawing list, renamed from its SDES items, and queued for the tree. It is then placed by the first automatic mode that is on (Placed). The runway is untouched unless it takes the source. |
| Objects.ObjectManager.AddSource | src/ObjectManager.cpp:1068-1151 | The non-null branch of addNewSource: Enlisted, then Placed. |
| Objects.ObjectManager.Enlist | src/ObjectManager.cpp:1073-1082 | The source is pushed to both lists and renamed by the SDES rule (VideoSource.ApplySdes). Its coordinates come from the LOC item, and it is queued for the tree when there is one. |
| Objects.ObjectManager.Place | src/ObjectManager.cpp:1084-1149 | Each mode leads to one layout request. Automatic focus rotation asks for aspectFocus with the newest movable object inside. Otherwise the automatic grid asks for a grid. Otherwise session focus adds sources of the focused address and asks for aspectFocus. Otherwise, with more than nine sources, the source joins the runway. |
| Objects.NewestMovableLast | src/ObjectManager.cpp:1088-1091 | The last movable object after the push is the new source, so automatic focus puts the newcomer inside. |
| Objects.FocusSplit | src/ObjectManager.cpp:1088-1091 | The inner and outer lists of automatic focus together are the movable list, split before its last element. |
| Objects.ObjectManager.JoinRunway | src/ObjectManager.cpp:1140-1146 | The source becomes the runway's last member and the runway is laid out again. |
| Objects.ObjectManager.ArrangeRotation | src/ObjectManager.cpp:1086-1098 | It logs aspectFocus with the last movable object inside and the rest outside. |
| Objects.ObjectManager.ArrangeGrid | src/ObjectManager.cpp:1100-1106 | It logs a grid of every movable object. |
| Objects.ObjectManager.ArrangeSessionFocus | src/ObjectManager.cpp:1109-1139 | It logs aspectFocus with the focus list inside and every other movable object outside. |
| Objects.ObjectManager.DeleteSource | src/ObjectManager.cpp:1154-1214 | The source leaves the sources and every list, leaves its group, and is queued for deletion. An emptied site-ID group leaves the lists and the map and is queued first. With gridAuto, a grid of the remaining movable objects is logged. |
| Objects.ObjectManager.RetireSource | src/ObjectManager.cpp:1156-1212 | This is deleteSource before its grid layout, stated by Retired against the old lists, group and map. |
| Objects.ObjectManager.Withdraw | src/ObjectManager.cpp:1161-1163 | removeFromLists and then vector::erase at the source's position. |
| Objects.ObjectManager.LeaveGroup | src/ObjectManager.cpp:1166-1204 | The source leaves its group (the group is laid out again if members are left). A site-ID group that it empties is unlisted, unmapped and queued. |
| Objects.ObjectManager.DropSiteGroup | src/ObjectManager.cpp:1192-1203 | The emptied group leaves the lists and the site-ID map and joins the delete queue. |
| Objects.ObjectManager.DeleteGroup | src/ObjectManager.cpp:1216-1227 | Every member is released, the group leaves the lists, and it is queued for deletion. |
| Objects.DeleteFirstRemovesEach | src/ObjectManager.cpp:536-563 | Deleting groups one after another removes each from the drawing and focus lists, and the flagged ones from the selection. All are queued in order. |
| Objects.ObjectManager.UngroupSiteIDGroups | src/ObjectManager.cpp:536-563 | Every site-ID group is deleted in std::map key order (ascending string order) and the map empties. Each group is left with no members, and each of its former members is ungrouped with no substring (removeAll). |
| Objects.EnumerationUnique | src/ObjectManager.cpp:540-558 | The key order that ungroupSiteIDGroups iterates in is determined by the map: two ascending enumerations of the same keys are equal. |
| Objects.GroupsInOrderDistinct | src/ObjectManager.cpp:540-558 | In key order, the groups of a map with no shared groups are pairwise different. |
| Objects.DeleteAll | src/ObjectManager.cpp:540-558 | Deleting a whole list of groups is deleting its first n groups for n its length. |
| Objects.ObjectManager.DeleteNext | src/ObjectManager.cpp:545-557 | One turn deletes the next group: it is emptied and its former members are released, the lists are those of DeleteOne on it, the groups before it stay dissolved and the later flagged groups are still selected. |
| Objects.ObjectManager.DeleteStep | src/ObjectManager.cpp:545-557 | The same turn stated as loop progress: after i groups the lists are DeleteFirst of i groups, the first i groups are dissolved and the later flagged ones still selected, and one turn makes that i + 1. |
| Objects.ObjectManager.DeleteGroups | src/ObjectManager.cpp:540-558 | From the loop state before the first group, the loop ends in the state after every group: the lists are DeleteFirst of all the groups (which DoneDeleting turns into DeleteAll), and every group is empty with its former members released. |
| Objects.ObjectManager.StartDeleting | src/ObjectManager.cpp:542-543 | Distinct site-ID groups that still hold their members and, when flagged, are selected form the loop state before the first group. |
| Objects.ObjectManager.DoneDeleting | src/ObjectManager.cpp:558 | The loop state after the last group gives lists equal to DeleteFirst over all the groups and every group dissolved. |
| Objects.ObjectManager.SetSiteIDGrouping | src/ObjectManager.cpp:988-995 | Turning site grouping on changes no list. Turning it off ungroups every site-ID group, releasing every former member. |
| Objects.ObjectManager.CreateSiteIDGroup | src/ObjectManager.cpp:1266-1294 | The new group is named (not final) and tagged with the site, and is drawn. It is mapped under the site unless the key is taken (std::map::insert keeps the old entry). |
| Objects.ObjectManager.DoDelayedDelete | src/ObjectManager.cpp:1651-1661 | Every queued object is freed in queue order and the queue empties. |
| Objects.ObjectManager.SetRunwayUsage | src/ObjectManager.cpp:1563-1570 | The flag takes the value. |
| Objects.ObjectManager.SetGridAuto | src/ObjectManager.cpp:1572-1577 | Turning the automatic grid on turns the runway off. Turning it off keeps the runway as it was. |
| Objects.ObjectManager.SetAutoFocusRotate | src/ObjectManager.cpp:1579-1584 | Turning automatic focus on turns the runway off. |
| Objects.ObjectManager.SetThumbnailMap | src/ObjectManager.cpp:1634-1638 | Storing the map turns session focus on. |
| Objects.ObjectManager.SetFocusSession | src/ObjectManager.cpp:1640-1644 | A new focused session starts with no focus objects. |
| Objects.ObjectManager.ResetAutoCounter | src/ObjectManager.cpp:1002-1005 | The automatic counter is zero. |
| Objects.ObjectManager.AdvanceCounters | src/ObjectManager.cpp:161-526 | Per frame, the draw, intersect and auto counters step modulo 30, 20 and 900. The hold counter follows NextHold, and all stay in range. |
| Objects.NextHold | src/ObjectManager.cpp:516-521 | The hold counter stays within -1..24. With the button held it climbs by one up to 24. With the button up it falls by two while positive, and at or below zero it climbs by one. |
| Objects.SelectionBoxFades | src/ObjectManager.cpp:516-521 | From any count in range, twelve frames with the button up bring the counter to -1, 0 or 1 and keep it there, so the selection box (drawn only above 1) is no longer drawn. |
| Objects.HoldClimbsToFull | src/ObjectManager.cpp:161-526 | Holding the button long enough always reaches the full count of 24. |
| RectangleBase.Rect.constructor | src/RectangleBase.cpp:41-46 | The object gets the defaults of setDefaults: unselected, unlocked, ungrouped, no substring, default colours, the default location, animated. It starts at (-15, 15) and is headed for (x, y). |
| RectangleBase.Substr | src/RectangleBase.cpp:532-543 | std::string::substr clamps the count to the end of the string. |
| RectangleBase.Rect.SubName | src/RectangleBase.cpp:532-543 | Without both bounds, the result is the whole name. With a start outside the name, it is the out_of_range error (None). Otherwise it is the part from nameStart to the cutoff, or to nameEnd, clamped. |
| RectangleBase.Rect.Move | src/RectangleBase.cpp:356-367 | The destination is set. An unanimated object is there at once; an animated one keeps its position and starts animating. |
| RectangleBase.Rect.SetPos | src/RectangleBase.cpp:369-373 | The position and the destination are both the point. |
| RectangleBase.Rect.SetScale | src/RectangleBase.cpp:375-385 | The same rule as move, for the scale. |
| RectangleBase.Rect.SetWidth | src/RectangleBase.cpp:375-395 | The destination width is w and the ratio destScaleX/destScaleY is kept. For a video source the width counts the aspect, as in the override at src/VideoSource.cpp:495-498. Through setScale, unanimated the visible scale jumps to the destination; animated it is kept and its animation starts. |
| RectangleBase.Rect.SetHeight | src/RectangleBase.cpp:375-400 | The destination height is h and the ratio is kept. Through setScale, unanimated the visible scale jumps to the destination; animated it is kept and its animation starts. |
| RectangleBase.Rect.SetSubstring | src/RectangleBase.cpp:711-717 | The displayed bounds are set. |
| RectangleBase.Rect.SetGroup | src/RectangleBase.cpp:622-627 | The object's group becomes g (null leaves it ungrouped). |
| RectangleBase.Rect.SetColor | src/RectangleBase.cpp:649-657 | The border colour target is set, and shown at once when unanimated. |
| RectangleBase.Rect.SetSecondaryColor | src/RectangleBase.cpp:659-667 | The same rule for the secondary colour. |
| RectangleBase.Rect.SetSelect | src/RectangleBase.cpp:565-580 | The flag is set, and the target colour is the selection colour or the base colour. Unanimated, the visible colour jumps to it. Animated, the visible colour is kept and its animation starts. |
| RectangleBase.Rect.ResetColor | src/RectangleBase.cpp:669-681 | The base colour is the default. The visible target follows it only when unselected; then, through setColor, unanimated the visible colour is the default at once, and animated it is kept and its animation starts. Selected, nothing visible changes. |
| RectangleBase.Rect.ChangeLock | src/RectangleBase.cpp:688-691 | The lock flips. |
| RectangleBase.Rect.SetRendering | src/RectangleBase.cpp:746-749 | The flag takes the value. |
| RectangleBase.IntersectMeansCommonPoint | src/RectangleBase.cpp:719-728 | For a proper query box, intersect holds exactly when the two closed boxes share a point. |
| RectangleBase.IntersectSymmetric | src/RectangleBase.cpp:730-739 | intersect(other) gives the same answer from either side. |
| RectangleBase.BoundsCentred | src/RectangleBase.cpp:223-241 | The destination bounds span the destination size and are centred on the destination. |
| Group.NewGroup | src/Group.cpp:30-48 | A new group is named "Group" with a name that is not final. It is locked with the lock shown, has the random base colour at alpha 0.7, and is arranged in one column preserving aspect. |
| Group.Shortest | src/Group.cpp:262-369 | It is the shortest name length capped at 256: at most every name's length, and attained by one of them unless it is the cap. |
| Group.FirstDifference | src/Group.cpp:262-369 | The first position where neighbouring names disagree. All neighbours agree before it. |
| Group.RFind | src/Group.cpp:262-369 | std::string::rfind: the last occurrence at or before pos, with no occurrence after it. |
| Group.Find | src/Group.cpp:262-369 | std::string::find: the first occurrence at or after pos, with none before it. |
| Group.UpdateName | src/Group.cpp:262-369 | If any member's name is not final, nothing changes. Otherwise the group and its members carry the naming rule's result (NamedBy), and the answer says whether the group's name changed. |
| Group.ApplySplit | src/Group.cpp:335-367 | Once the split is known, the group and its members carry the naming rule (NamedBy): the group takes the first name up to the split (all of it at split 0), each member the substring the rule gives it, and the name is final. |
| Group.ScanMembers | src/Group.cpp:266-280 | The first loop gives "all final" and the capped shortest length. |
| Group.CommonPrefixEnd | src/Group.cpp:282-300 | The prefix loop stops where PrefixEnd says. |
| Group.LoneNameParens | src/Group.cpp:301-330 | The right-to-left scan of a lone name is ParenScan. |
| Group.FindSplit | src/Group.cpp:282-345 | The split position and parentheses are GroupSplit of the names. |
| Group.SetMemberSubstrings | src/Group.cpp:350-366 | Each member gets the substring of the naming rule. |
| Group.PrefixEndIsFirstDifference | src/Group.cpp:282-300 | Every name shares the first name's characters before the split. Short of the cap, some name differs at the split. |
| Group.GroupNameIsCommonPrefix | src/Group.cpp:282-345 | A cut group name is a prefix of every member's name. |
| Group.NamingWithoutParentheses | src/Group.cpp:282-366 | Without parentheses, the group takes the common prefix and each member shows the rest of its name. |
| Group.SingleTrailingParentheses | src/Group.cpp:301-366 | A lone member "p(inner)" shows inner and names the group p. |
| Group.SingleNoTrailingParenthesis | src/Group.cpp:301-366 | A lone member without a trailing ')' names the group in full and is shown in full. |
| Group.NamedSubstringsInRange | src/Group.cpp:350-366 | Every substring that naming sets is one getSubName accepts. |
| Group.TwoCamerasExample | src/Group.cpp:262-369 | "Room A (cam1)" and "Room A (cam2)" give the group "Room A " and show "cam1" and "cam2". |
| Group.Add | src/Group.cpp:65-76 | The object is appended and joins the group. The members (the newcomer included) are laid out once, and a group is named by the naming rule. A runway, or a group with a member whose name is not final, keeps its name, its final flag and every member's substring. |
| Group.Join | src/Group.cpp:65-70 | Append, setGroup and the rearrangement. |
| Group.Remove | src/Group.cpp:78-101 | A null object or a non-member changes nothing. A member is erased (the others keep their order) and loses its group and substring. With move, the rest are laid out again. |
| Group.RemoveIndex | src/Group.cpp:103-119 | The end position changes nothing. Any other position removes that member as above and returns the same index. |
| Group.RemoveAll | src/Group.cpp:131-138 | The group empties and every former member is ungrouped with no substring, without a layout. |
| Group.Rearrange | src/Group.cpp:155-250 | An empty group is not laid out. Otherwise the members are laid out once, and the grid accepts every group below 2^31 members. |
| Group.RearrangeAccepted | src/Group.cpp:160-250 | For every style, the requested grid has a cell for each member; one row and one column are what they say. The grid accepts the request. |
| Group.AspectAccepted | src/Group.cpp:170-185 | The near-square options read back as the grid's own automatic dimensions, which fit. |
| Group.LineAccepted | src/Group.cpp:186-210 | The one-row and one-column options ask for n by 1 and 1 by n (vertically), which fit. |
| Group.Move | src/Group.cpp:371-379 | The group's destination becomes the point, and every member keeps its offset from the group's destination. A non-animated group or member is at its destination at once, with its animation flag kept. An animated one stays where it was and starts animating. |
| Group.SetPos | src/Group.cpp:381-389 | The same as move, with every position set at once. |
| Runway.NewRunway | src/Runway.cpp:29-47 | The runway is unlocked, not selectable or movable, named "Runway", one column and grey. |
| Runway.UpdateName | src/Runway.cpp:109-115 | The runway's name never changes and the answer is always "unchanged". |
| Runway.Reported | src/Runway.cpp:117-151 | Exactly the unselected members whose centre is outside are reported. |
| Runway.ReportedExactly | src/Runway.cpp:117-151 | The report holds no selected member and misses none outside. |
| Runway.CheckMemberIntersect | src/Runway.cpp:117-151 | It returns the reported members in member order. It lays out only when none is outside and none is selected. |
| Runway.HandleOutsideMembers | src/Runway.cpp:153-163 | Every reported member is removed without a layout. The kept members keep their order, group and substring, and each removed one is released. There is one layout, by the check or after removals. |
| Runway.ReleaseOutside | src/Runway.cpp:155-162 | The listed members go, then there is a layout if any went. |
| Runway.RemoveListed | src/Runway.cpp:155-160 | The removal loop drops exactly the reported set. |
| Runway.RemoveMember | src/Runway.cpp:158 | One removal erases the first occurrence without a layout and keeps every earlier removed member released. |
| LayoutManager.Str2Bool | src/LayoutManager.cpp:37 | Only "True" is true. |
| LayoutManager.BoolRoundTrip | src/LayoutManager.cpp:37-41 | str2bool reads back bool2str. |
| LayoutManager.Bool2Str | src/LayoutManager.cpp:41 | The text is "True" or "False". |
| LayoutManager.Int2Str | src/LayoutManager.cpp:43-48 | The text is non-empty and starts with a minus sign or a digit. |
| LayoutManager.NaturalRoundTrip | src/LayoutManager.cpp:38-48 | atoi reads back the digits of a natural number. |
| LayoutManager.NegativeRoundTrip | src/LayoutManager.cpp:38-48 | atoi reads back a minus sign and the digits of a negative number. |
| LayoutManager.IntRoundTrip | src/LayoutManager.cpp:38-48 | str2int (atoi) reads back int2str for every int. |
| LayoutManager.Lookup | src/LayoutManager.cpp:60-111 | A method is found exactly for the four names perimeter, grid, focus and aspectFocus. |
| LayoutManager.ApplyDefaults | src/LayoutManager.cpp:246-258 | A caller's option is kept and a missing one takes the default; nothing else is added. |
| LayoutManager.CeilSqrt | src/LayoutManager.cpp:283 | The least k with k*k >= n (ceil of sqrt). |
| LayoutManager.Unsigned32 | src/LayoutManager.cpp:290-291 | The cast to unsigned int lies in 0..2^32-1 and keeps a value already in range. |
| LayoutManager.AutoGridCovers | src/LayoutManager.cpp:281-285 | The automatic grid has a cell for every object and no more rows than columns. |
| LayoutManager.AutoGridBounded | src/LayoutManager.cpp:281-285 | The automatic grid has at most 2n cells. |
| LayoutManager.AutoGridFits | src/LayoutManager.cpp:281-291 | The automatic grid never fails for fewer than 2^31 objects. |
| LayoutManager.GridArrange | src/LayoutManager.cpp:234-291 | It fails without an object list, on an empty list, or when the (unsigned 32-bit) cell count is too small. Otherwise it succeeds. |
| LayoutManager.PerimeterCounts | src/LayoutManager.cpp:130-146 | One object goes on top. Otherwise the bottom takes what the top and both sides leave, never a negative count, and no more than n objects are placed in all. |
| LayoutManager.SplitPartitions | src/LayoutManager.cpp:152-226 | Read around the perimeter, the four runs give back the list. |
| LayoutManager.PerimeterRunsFit | src/LayoutManager.cpp:130-226 | What the bottom leaves fits on the side. |
| LayoutManager.PerimeterArrange | src/LayoutManager.cpp:113-232 | It fails only without an object list. Otherwise the runs are the split. |
| LayoutManager.CopyRun | src/LayoutManager.cpp:155-160 | The loop collects the run in order. |
| LayoutManager.ReversedRun | src/LayoutManager.cpp:195-200 | The loop collects the run backwards. |
| LayoutManager.FocusGridIsAutomatic | src/LayoutManager.cpp:530-545 | focus' grid options leave both dimensions to the grid. |
| LayoutManager.FocusArrange | src/LayoutManager.cpp:464-565 | It succeeds exactly when both lists are given and the inner grid accepts them. |
| LayoutManager.AspectFocusArrange | src/LayoutManager.cpp:567-638 | It has the same guards and result as focus. |
| LayoutManager.Arrange | src/LayoutManager.cpp:82-111 | An unknown name fails. Otherwise the result is the chosen layout's. |
| VideoSource.NewVideoSource | src/VideoSource.cpp:33-49 | The source has the defaults, the sink's picture size, aspect 1.56 and no aspect animation, is rendering, and is headed for (x, y). |
| VideoSource.SetVideo | src/VideoSource.cpp:33-49 | The video fields are the stream's session, SSRC and picture size, with aspect 1.56 and no aspect animation. |
| VideoSource.ApplySdes | src/VideoSource.cpp:403-443 | A changed non-empty NAME replaces the name and makes it final. A changed CNAME replaces the alternative name. An empty name falls back to the CNAME. The answer is whether NAME or CNAME changed. |
| VideoSource.ApplySdesIdempotent | src/VideoSource.cpp:403-443 | Reading the same items again changes nothing and reports no change. |
| VideoSource.SplitLocation | src/VideoSource.cpp:425-438 | The LOC item splits at its first comma. There is no split without a comma. |
| VideoSource.SplitLocationRoundTrip | src/VideoSource.cpp:425-438 | A comma-free latitude joined to a longitude splits back into them. |
| VideoSource.UpdateName | src/VideoSource.cpp:403-443 | The naming follows ApplySdes, and the coordinates come from a LOC item with a comma. |
| VideoSource.SetRendering | src/VideoSource.cpp:537-561 | A muted source is unchanged. Otherwise the flag takes the value. Switching off turns the base colour blue (keeping its alpha), heads the border for it unless the source is selected, and uses it as the secondary colour. Switching on restores the default colour and clears the secondary colour. The secondary colour is shown at once on a non-animated source and animates on an animated one. So does the border of an unselected source; a selected source's shown border and its flag do not change. |
| VideoSource.ScaleNative | src/VideoSource.cpp:354-389 | No picture or no hit changes nothing. Otherwise the source's destination scale is the cast size, which becomes its intended size. A non-animated source takes that scale at once with its animation flag kept; an animated one keeps its shown scale and starts animating. |
| VideoSource.AspectFor | src/VideoSource.cpp:298-301 | The aspect is width over height, or 1.33 without a height. |
| VideoSource.PixelArea | src/VideoSource.cpp:294 | The unsigned product lies in 0..2^32-1 and is the area when that fits. |
| VideoSource.AreaReleaseAsWritten | src/VideoSource.cpp:294 | The unsigned negation of the area, widened to a 64-bit long (LP64 platforms), is 2^32 minus the area modulo 2^32. |
| VideoSource.ReleaseAsWrittenOvershoots | src/VideoSource.cpp:294 | As written, every non-empty release adds 2^32 more than intended, and so increases the count. |
| VideoSource.ReleaseAsWrittenExample | src/VideoListener.cpp:149-150 | For 640x480, it adds 4294660096 instead of subtracting 307200. |
| VideoSource.AreaRelease | src/VideoSource.cpp:294 | The intended change gives back exactly the area. |
| VideoSource.ResizesTrackArea | src/VideoSource.cpp:294-297 | After any number of resizes, the count has given back the first area and holds exactly the last. |
| VideoSource.ResizeBuffer | src/VideoSource.cpp:280-352 | It releases the old area and takes the new one. The size and target aspect are set, and the aspect follows at once unless animated. |
| VideoListener.CDiv | src/VideoListener.cpp:128-129 | C integer division truncates toward zero. |
| VideoListener.RowsOfThree | src/VideoListener.cpp:118-130 | From -7.5, new sources go three to a row. |
| VideoListener.SlotAdvances | src/VideoListener.cpp:118-130 | The next slot is further right, the next row, or the restart near the top. |
| VideoListener.SiteData | src/VideoListener.cpp:179 | The site ID is the first 32 characters of the data. |
| VideoListener.SourceIndex | src/VideoListener.cpp:139-146 | The first source with the session and SSRC, or the end when none has them. |
| VideoListener.SsrcIndex | src/VideoListener.cpp:194-202 | The first source with the SSRC, or the end when none has it. |
| VideoListener.VideoListener.constructor | src/VideoListener.cpp:41-51 | Placement starts at (-7.5, 5.7) and nothing is counted. |
| VideoListener.VideoListener.UpdatePixelCount | src/VideoListener.cpp:250-253 | The signed change is added. |
| VideoListener.VideoListener.SourceCreated | src/VideoListener.cpp:53-133 | Every video decoder is counted. A source is made exactly when the sink is ready and the session is known. It is then Enlisted (appended to the sources, the drawing list and the tree queue, named from its SDES items from an empty naming, located from its location item or the default) and Placed by addNewSource, and the slot advances. Otherwise nothing else changes. |
| VideoListener.VideoListener.HandOver | src/VideoListener.cpp:108-112 | The new source has the picture's size and scale 5.25 and is headed for the current slot. addNewSource Enlists it, from an empty naming and the default location, and Places it. |
| VideoListener.VideoListener.Register | src/VideoListener.cpp:111-112 | addNewSource Enlists the source against its naming and location before the call, and Places it. |
| VideoListener.VideoListener.NewSource | src/VideoListener.cpp:108-111 | The source is made with the picture's size, scaled to 5.25 and moved to the slot. It is unnamed, not final, and at the default location. |
| VideoListener.VideoListener.AdvanceSlot | src/VideoListener.cpp:118-130 | The slot moves to NextSlot. |
| VideoListener.VideoListener.FindSource | src/VideoListener.cpp:139-146 | The search finds the first source of the session with the SSRC. |
| VideoListener.VideoListener.SourceDeleted | src/VideoListener.cpp:135-158 | An unknown source changes nothing. Otherwise the first matching source is uncounted, gives back its area, and is deleted by deleteSource. It is Retired (it leaves every list, its group and the sources and is queued for deletion, and a site group it empties goes with it), and the grid layout is logged when automatic. |
| VideoListener.VideoListener.FindSsrc | src/VideoListener.cpp:194-202 | The search finds the first source with the SSRC. |
| VideoListener.VideoListener.SourceApp | src/VideoListener.cpp:166-228 | Only a "site" packet (first four octets) with site grouping on, for a known ungrouped source, does anything. The source takes the 32-character site ID and joins that site's group, which is created and drawn when missing. A group whose members all have final names is then NamedBy them. Otherwise the group keeps its name and flag (a new one keeps the site ID, not final) and no member's substring moves. |
| AudioManager.Mask | src/AudioManager.cpp:46-78 | A source matches exactly when its site (or CNAME) is the name or the name is empty. |
| AudioManager.Readings | src/AudioManager.cpp:60-66 | Each source reads its running average when averaging and its level otherwise. |
| AudioManager.SsrcIndex | src/AudioManager.cpp:143-160 | The first entry with the SSRC, or the end when none has it. |
| AudioManager.Meter.ResetAverage | src/AudioManager.cpp:63 | Each restart of a meter's average is counted once. |
| AudioManager.NoHits | src/AudioManager.cpp:46-78 | No match exactly when no flag is set. |
| AudioManager.TotalBounds | src/AudioManager.cpp:46-78 | The matched readings sum to between count times the lower and upper bounds. |
| AudioManager.QuotientBounds | src/AudioManager.cpp:70-77 | Over a positive count, the level is the mean and lies within the readings' bounds. |
| AudioManager.NoMatchReadsMinusTwo | src/AudioManager.cpp:70-77 | With no match, the level is -2. |
| AudioManager.MeanIsAverage | src/AudioManager.cpp:46-78 | With a match, the level is the sum over the count and lies within the readings' bounds. |
| AudioManager.EmptyNameMatchesAll | src/AudioManager.cpp:46-78 | The empty name averages every source. |
| AudioManager.AudioManager.GetLevel | src/AudioManager.cpp:46-78 | The level is the Mean of the old readings over the matches. Each matching meter's average is restarted once when averaging. |
| AudioManager.AudioManager.ReadNext | src/AudioManager.cpp:56-67 | One turn adds a matching reading to the sum and one to the count, and restarts the average it read. |
| AudioManager.AudioManager.GetLevelAvg | src/AudioManager.cpp:80-83 | It is getLevel over averages, matching by site. |
| AudioManager.AudioManager.GetSourceCount | src/AudioManager.cpp:95-98 | The number of entries. |
| AudioManager.AudioManager.constructor | src/AudioManager.cpp:36-39 | A new manager has no sources, and so trivially every source is listed once with a meter of its own (Valid). |
| AudioManager.AudioManager.UpdateNames | src/AudioManager.cpp:100-113 | An entry with a CNAME reported for its session and SSRC takes it; the others keep theirs. |
| AudioManager.AudioManager.SourceCreated | src/AudioManager.cpp:115-141 | Exactly the linear-16 streams get an entry at the end, with no site or CNAME and a fresh meter. |
| AudioManager.AudioManager.SourceDeleted | src/AudioManager.cpp:143-160 | The first entry with the SSRC is erased, keeping order. An unknown SSRC changes nothing. |
| AudioManager.AudioManager.SourceApp | src/AudioManager.cpp:168-192 | A "site" packet (first four octets) sets the site of every entry with the SSRC. Any other packet changes nothing. |
| AudioManager.SiteAnnounced | src/AudioManager.cpp:168-192 | After a site packet, reading the level by that site matches every entry with the packet's SSRC. |
| SessionManager.Lookup | src/SessionManager.cpp:116-138 | The first entry with the address, or the end exactly when there is none. |
| SessionManager.Count | src/SessionManager.cpp:433-441 | The number of entries of a kind is at most the number of entries. |
| SessionManager.CountRemoveAt | src/SessionManager.cpp:116-138 | Erasing an entry takes one from its own kind's count and leaves the other's. |
| SessionManager.NextPos | src/SessionManager.cpp:200-203 | The cursor moves one on modulo the list's length and stays in range. |
| SessionManager.SessionManager.constructor | src/SessionManager.cpp:41-52 | No sessions, zero counts, an empty rotation list and no rotation. |
| SessionManager.SessionManager.Find | src/SessionManager.cpp:116-138 | The search loop finds the first entry with the address. |
| SessionManager.SessionManager.InitSession | src/SessionManager.cpp:63-114 | An initialised session pushes an enabled, unencrypted entry and increments its kind's counter. Otherwise nothing changes. |
| SessionManager.SessionManager.RemoveSession | src/SessionManager.cpp:116-138 | The first entry with the address is erased and its kind's counter decremented. An unknown address answers false. |
| SessionManager.SessionManager.AddRotatedSession | src/SessionManager.cpp:140-145 | The address joins the end of the rotation list. |
| SessionManager.SessionManager.RemoveRotatedSession | src/SessionManager.cpp:147-185 | The address leaves the list, the cursor steps back when at or past it, and its session is removed. An unknown address changes nothing. |
| SessionManager.SessionManager.CurrentRotateSession | src/SessionManager.cpp:288-294 | The entry at the cursor, or "" when not rotating. |
| SessionManager.SessionManager.CurrentWhileRotating | src/SessionManager.cpp:288-294 | While rotating, the current session is the list entry at the cursor; "" means not rotating unless the list holds "". |
| SessionManager.SessionManager.Rotate | src/SessionManager.cpp:187-219 | The cursor moves one on and wraps. The session switches from the last to the new current one. |
| SessionManager.SessionManager.SwitchTo | src/SessionManager.cpp:206-218 | The table switches from the last session to the new current one (Switched). |
| SessionManager.SessionManager.RotateTo | src/SessionManager.cpp:221-270 | The cursor moves to the address's first position and the session switches. An absent address keeps both. |
| SessionManager.SessionManager.Unrotate | src/SessionManager.cpp:272-286 | Rotation stops and the current session is removed. |
| SessionManager.RotationsFirstCycle | src/SessionManager.cpp:187-219 | The first n rotations visit the list in order. |
| SessionManager.RotationsPeriodic | src/SessionManager.cpp:187-219 | Every n rotations the cursor returns. |
| SessionManager.CountKinds | src/SessionManager.cpp:433-441 | The video and audio counts add up to the number of entries. |
| SessionManager.SessionManager.SetSessionEnable | src/SessionManager.cpp:301-317 | The first entry's flag is set. An unknown address answers false and changes nothing. |
| SessionManager.SessionManager.IsSessionEnabled | src/SessionManager.cpp:319-335 | The first entry's flag, or false. |
| SessionManager.SessionManager.SetEncryptionKey | src/SessionManager.cpp:337-356 | The key is stored and encryption turned on, or false for an unknown address. |
| SessionManager.SessionManager.DisableEncryption | src/SessionManager.cpp:358-376 | Encryption is turned off and the key kept, or false. |
| SessionManager.SessionManager.IsEncryptionEnabled | src/SessionManager.cpp:378-395 | The first entry's encryption flag, or false. |
| SessionManager.SessionManager.IterateSessions | src/SessionManager.cpp:397-431 | Each enabled timestamp advances by one modulo 2^32. The others are untouched, and the answer is whether any entry is enabled. |
| SessionManager.SessionManager.GetVideoSessionCount | src/SessionManager.cpp:433-436 | The number of video entries. |
| SessionManager.SessionManager.GetAudioSessionCount | src/SessionManager.cpp:438-441 | The number of audio entries. |
| InputHandler.HtokKtoh | src/InputHandler.cpp:658-672 | htok(ktoh(k, m)) is k, and the low bits are m, for modifiers below 16. |
| InputHandler.HtosOfKtoh | src/InputHandler.cpp:675-693 | htos of a hash is the modifier prefix and then the key's name or character. |
| InputHandler.DocsAgree | src/InputHandler.cpp:56-179 | The handler and help maps have the same keys, and each help text is that of the handler it runs. |
| InputHandler.LastRegistrationWins | src/InputHandler.cpp:56-179 | The last registration of a key decides its handler. |
| InputHandler.NeverRegistered | src/InputHandler.cpp:56-179 | An unregistered key runs nothing. |
| InputHandler.CtrlABound | src/InputHandler.cpp:102 | Ctrl-A runs selectAll in every build: no later registration takes the key. |
| InputHandler.CtrlIBound | src/InputHandler.cpp:104 | Ctrl-I runs invertSelection in every build. |
| InputHandler.BackspaceBound | src/InputHandler.cpp:106 | Backspace runs clearSelected in every build. |
| InputHandler.SelectionKeysBound | src/InputHandler.cpp:102-106 | Ctrl-A selects all, ctrl-I inverts the selection, and backspace clears it, in every build. |
| InputHandler.CtrlQBound | src/InputHandler.cpp:85 | Ctrl-Q runs quit in every build. |
| InputHandler.EscapeBound | src/InputHandler.cpp:87 | Escape runs quit in every build. |
| InputHandler.QuitKeysBound | src/InputHandler.cpp:85-87 | Ctrl-Q and escape quit. |
| InputHandler.SpaceBoundOnlyInDebug | src/InputHandler.cpp:145-151 | Space adds a test object exactly in a debug build. |
| InputHandler.InputHandler.constructor | src/InputHandler.cpp:56-179 | The table is the registrations in order. No button is held and nothing is dragged. |
| InputHandler.InputHandler.ProcessKeyboard | src/InputHandler.cpp:695-735 | The byte of the key code, hashed with the modifiers, runs its handler exactly when one is registered. |
| InputHandler.InputHandler.HandleSelectAll | src/InputHandler.cpp:598-607 | The selection becomes the movable objects in order, each flagged and headed for the select colour; a non-animated one shows it at once with its animation flag kept, and an animated one keeps its shown colour and starts animating (SelectedAs). Objects that left the selection are unflagged and headed for their base colour (SelectedAs false). Every other drawn object keeps its flag and colours (Untouched). |
| InputHandler.InputHandler.SelectNext | src/InputHandler.cpp:602-606 | One turn selects the next movable object and appends it (SelectingAll): the selection stays a prefix of the movable list. The objects done are selected, and the cleared ones not yet reselected are unselected, each against its look before the call. The rest of the drawn objects are as they were. |
| InputHandler.InputHandler.StartSelectAll | src/InputHandler.cpp:600-601 | The movable objects are taken and the selection cleared. The loop state SelectingAll holds at 0 against the looks at the call. |
| InputHandler.InputHandler.SelectMovable | src/InputHandler.cpp:602-606 | The loop runs from SelectingAll at 0 to SelectingAll at the end. |
| InputHandler.InputHandler.SelectedAll | src/InputHandler.cpp:602-606 | At the end of the loop the selection is the movable list. Each movable object is selected, each cleared object left out is unselected, and every other drawn object is as it was. |
| InputHandler.InputHandler.HandleInvertSelection | src/InputHandler.cpp:360-379 | Every movable object's flag flips, with the colour behaviour of setSelect (SelectedAs), and the selection follows InvertedFirst. Every drawn object that is not movable is Untouched. |
| InputHandler.InputHandler.InvertNext | src/InputHandler.cpp:364-377 | One turn flips the next object (InvertedLooks) and moves the selection one step on through InvertedFirst. The later flagged objects stay listed. |
| InputHandler.InputHandler.StartInvert | src/InputHandler.cpp:362 | The movable objects are taken with their flags, and the loop state Inverting holds at 0 against the current looks. |
| InputHandler.InputHandler.InvertMovable | src/InputHandler.cpp:363-378 | The loop runs from Inverting at 0 to Inverting at the end. |
| InputHandler.InputHandler.FlipNext | src/InputHandler.cpp:365-366 | setSelect flips the next object's flag (InvertedLooks one step on), leaving every other object as it was. |
| InputHandler.InputHandler.Inverted | src/InputHandler.cpp:363-378 | At the end of the loop the selection is InvertedFirst of every movable object. Each movable object is SelectedSince its look before with the opposite flag, and every other drawn object is as it was. |
| InputHandler.InvertedMembership | src/InputHandler.cpp:360-379 | After inverting, the selection lists each object once. It holds a movable object exactly when its new flag is set, and other objects as before. |
| InputHandler.InputHandler.LeftRelease | src/InputHandler.cpp:823-848 | The box selection joins the selection, the box list empties, and the button and drag are over. Without a drag held over five frames, every object of both lists is Untouched. With one, the selection empties, and every object of both lists is unflagged and headed for its base colour (SelectedAs false). |
| GLUtil.Pow2 | include/GLUtil.h:58-63 | The result is the least power of two that is at least 2 and at least x. |
| GLUtil.RoundedUpUnique | include/GLUtil.h:58-63 | pow2's result is determined by x. |
| GLUtil.Pow2Idempotent | include/GLUtil.h:58-63 | Rounding a result again gives it back. |
| GLUtil.Pow2Monotone | include/GLUtil.h:58-63 | A larger request never gets a smaller size. |
| GravUtil.ResourcePaths.constructor | src/gravUtil.cpp:43-51 | The search list is the working directory and the resource directory, each with its py subdirectory. |
| GravUtil.ResourcePaths.FindFile | src/gravUtil.cpp:58-74 | dir + file for the first directory holding it, or "". |
| GravUtil.FirstFoundIs | src/gravUtil.cpp:58-74 | FirstFound is the first index meeting its description. |
| GravUtil.NotFoundIffNone | src/gravUtil.cpp:58-74 | "" exactly when no directory holds the file. |
| GravUtil.ResourcePaths.AddPath | src/gravUtil.cpp:76-85 | The path, with its trailing separator, goes first. |
| GravUtil.WithSeparator | src/gravUtil.cpp:76-85 | The stored path ends in the separator, which is added exactly when it is missing. |
| GravUtil.AddedPathPreferred | src/gravUtil.cpp:58-85 | After addPath, a file under the path is found there first. |
| GravUtil.VersionString | src/gravUtil.cpp:156-168 | The version is the three components joined by dots, followed by " (Debug Build)" exactly in a debug build. |
| GravUtil.VersionComponents | src/gravUtil.cpp:156-168 | A release version string splits back into its three components. |
| Timers.Elapsed | src/Timers.cpp:58-69 | The interval wraps once around a second and lies in range. |
| Timers.RenderTimer.constructor | src/Timers.cpp:31-36 | The baseline and the reading start equal. |
| Timers.RotateTimer.constructor | src/Timers.cpp:76-80 | The rotate timer starts with a period of 30000 ms. |
| Timers.RenderTimer.GetTiming | src/Timers.cpp:58-69 | A reading returns the interval since the baseline and keeps the baseline. |
| Timers.RenderTimer.ResetTiming | src/Timers.cpp:71-74 | The latest reading becomes the baseline. |
| Timers.ResetThenUnchangedClock | src/Timers.cpp:58-74 | After a reset, an unmoved clock reads zero. |
| Timers.ElapsedAdds | src/Timers.cpp:58-69 | Intervals add up modulo a second. |
| Timers.RotateTimer.Start | src/Timers.cpp:88-94 | -1 keeps the previous period. Any other value becomes the period. |
| AGTools.GetClient | py/AGTools.py:32-43 | The client is returned exactly when it answers that it is valid. A false answer or a raise gives None. |
| AGTools.FirstValid | py/AGTools.py:45-50 | The first URL with a valid client: all earlier ones have none. |
| AGTools.FirstValidClient | py/AGTools.py:45-50 | The URL returned has a valid client and is the first one. With no valid client, the result is "". |
| AGTools.Dict | py/AGTools.py:64 | dict() has exactly the keys of the pairs. |
| AGTools.DictLastWins | py/AGTools.py:64 | A key holds the value of its last pair. |
| AGTools.ExitsByName | py/AGTools.py:52-65 | The exits are keyed by exactly their names, each holding the URI of the last exit with that name. |
| AGTools.NoExitsWithoutClient | py/AGTools.py:52-62 | An invalid client or a raising GetConnections gives {}. |
| AGTools.EnterVenue | py/AGTools.py:67-74 | The client is asked to enter the venue exactly when it is valid. |
| AGTools.Key | py/AGTools.py:89 | The key is never empty, and a non-empty encryption key is used as it is. |
| AGTools.FormatParses | py/AGTools.py:88 | "host/port" splits at '/' back into the host and the port's digits. |
| AGTools.OfType | py/AGTools.py:90-94 | Exactly the streams with a capability of the type. |
| AGTools.GetFormattedVenueStreams | py/AGTools.py:76-95 | An invalid client gives {}, and a raising GetStreams propagates. |
| AGTools.StreamsOfType | py/AGTools.py:76-95 | The keys listed are exactly the "host/port" of streams of the type, and every value is non-empty. |
| AGTools.StreamKeyOfLast | py/AGTools.py:94 | A shared "host/port" holds the key of the last such stream. |
| AGTools.GetCurrentVenueName | py/AGTools.py:97-109 | "" for an invalid client or no streams; otherwise the first stream's name. A raise propagates. |
| GravEntry.ResolveRebuilds | py/gravEntry.py:27-44 | A path module string is rebuilt from its directory, the separator and a file name without separators. |
| GravEntry.ResolveBareName | py/gravEntry.py:27-44 | A bare name is searched for in cwd/py. |
| GravEntry.ModuleName | py/gravEntry.py:27-44 | The name imported is the file name up to its first '.'. |
| GravEntry.SysPath.Remove | py/gravEntry.py:50 | list.remove takes out the first occurrence, and an absent value changes nothing. |
| GravEntry.SysPath.Insert | py/gravEntry.py:45 | list.insert puts the value at the position and shifts the rest. |
| GravEntry.RemoveFront | py/gravEntry.py:45-50 | Removing what was just inserted at the front restores sys.path. |
| GravEntry.EntryFunc | py/gravEntry.py:27-56 | On success, the callee's result comes back and sys.path is restored. On failure, the answer is None and the directory stays at the front. |
| PyTest.TestFunction | py/test.py:5-7 | Each element followed by "-sauce", in order. |
| PyTest.TestDictFunction | py/test.py:9-11 | Each key k is filed under "k sauce" with "testd[k] boss". |
| PyTest.TestDictKeepsSize | py/test.py:9-11 | No two keys collide, so the dictionary keeps its size. |
| PyTest.SauceKeysDistinct | py/test.py:9-11 | Different keys are filed under different keys. |
| PyTest.TestString | py/test.py:16-17 | The string "a string". |
| PyTest.TestUnicode | py/test.py:13-14 | The literal's characters. |
| TestFunctions.ClosureOfList | py/testFunctions.py:5-24 | A list of strings keeps its order, with "-bob" after each element. |
| TestFunctions.ClosureOfDict | py/testFunctions.py:5-24 | A dictionary passes through. |
| TestFunctions.ClosureOfString | py/testFunctions.py:5-24 | A string gets "-is-a-string". |
| TestFunctions.ClosureFailures | py/testFunctions.py:5-24 | Any raise answers "not null", and "not null" comes only from a raise. |
| TestFunctions.Handler | py/testFunctions.py:26-27 | The decorator applies closure to the call's outcome. |
| TestFunctions.DecoratedTestFunction | py/testFunctions.py:26-32 | The decorated test_function adds "-sauce-bob". |
| TestFunctions.DecoratedTestFunctionExample | py/testFunctions.py:26-32 | ["a", "b"] gives ["a-sauce-bob", "b-sauce-bob"]. |
| TestFunctions.DecoratedTestDictFunction | py/testFunctions.py:26-37 | The decorated test_dict_function is test_dict_function. |
| TestFunctions.DecoratedConstants | py/testFunctions.py:26-51 | test_string gives 'a string-is-a-string' and test_exception gives "not null". |
| Text.JoinSplit | py/AGTools.py:88 | Joining the split pieces gives the string back. |
| Text.Split | py/AGTools.py:88 | str.split gives at least one piece, and no piece holds the separator. |
| Text.SplitJoin | py/AGTools.py:88 | Splitting a join of separator-free pieces gives them back. |
| Text.AscendingUnique | src/ObjectManager.cpp:540-558 | An ascending listing of a key set is unique. |
| Text.StrLessTotal | src/ObjectManager.cpp:540-558 | std::string order is total on different strings. |
| Text.StrLessAsymmetric | src/ObjectManager.cpp:540-558 | std::string order never holds both ways. |
| Text.DecimalValue | src/LayoutManager.cpp:43-48 | The decimal digits of n read back as n. |
| Seqs.IndexOf | src/ObjectManager.cpp:1234-1264 | std::find: the first occurrence, or the end exactly when absent. |
| Seqs.RemoveAt | src/ObjectManager.cpp:1161-1163 | vector::erase at a position keeps the others in order. |
| Seqs.Position | src/ObjectManager.cpp:1234-1264 | The search loop of std::find finds IndexOf. |
| Seqs.Erase | src/ObjectManager.cpp:1234-1264 | Search and erase remove the first occurrence. |
| Seqs.EraseAll | src/ObjectManager.cpp:1124-1134 | The erase-while-iterating loop drops every occurrence and keeps the rest in order. |
| Seqs.DropTwice | src/ObjectManager.cpp:1118-1135 | Dropping one set and then another drops their union. |
| Seqs.RemoveFirstMultiset | src/ObjectManager.cpp:1234-1264 | Erasing the first occurrence removes exactly one copy. |
| Seqs.RemoveSelected | src/Runway.cpp:153-163 | Erasing the reported members one at a time leaves exactly the others. |
| Seqs.EraseEach | src/ObjectManager.cpp:1118-1131 | Erasing each focus object in turn leaves the movable list without them. |
| Seqs.DropKeeps | src/ObjectManager.cpp:1118-1131 | Dropping keeps exactly the elements outside the set. |
| Seqs.ToTop | src/ObjectManager.cpp:620-638 | Erase and push back keeps the multiset and puts x last. |

## Left out

- Floating point: every float and double (positions, scales, colours,
  aspect ratios, audio levels, layout ratios, slot coordinates) is an
  exact real. Rounding, overflow to infinity and NaN are not modelled.
- Drawing, textures, fonts, GL calls, the earth view, the camera, GUI
  dialogs, logging, mutex locking and threads are not modelled. The media
  library's callbacks and SDES items, the clock, random numbers, file
  existence, Access Grid remote calls and Python imports are parameters.
- Group.Add: the loop that calls updateName() on every member
  (src/Group.cpp:71-72) is not modelled. For a plain object it does
  nothing (src/RectangleBase.cpp:698-701). For a video source, it re-reads
  the SDES items, which are inputs, not state, here.
- RectangleBase.Rect.SetGroup: the updateName() call made when the group
  becomes NULL (src/RectangleBase.cpp:624-626) is not modelled, for the
  same reason.
- Objects.ObjectManager.AddNewSource: the border texture and the source
  locks are not modelled. The renaming is modelled with the SDES items as
  parameters. Each automatic layout is recorded as a request in
  `arrangements`; where the layout puts objects is not modelled.
- Objects.ObjectManager.DeleteSource: the grid re-arrange with gridAuto
  is recorded as a request only.
- Objects.ObjectManager.DoDelayedDelete: the destructors that run for
  the queued objects are not modelled. The deleted objects are recorded
  in `freed`.
- Group.Rearrange: where the grid puts each member, and the
  aspect-preserving rescale, are floating-point positioning. Only the
  request, and whether the grid accepts it, are modelled.
- RectangleBase.Rect.SetWidth: it requires a non-zero destScaleX (and,
  for a video source, a non-zero destAspect). The source divides by
  these, and with floats a zero gives infinity or NaN, which exact reals
  do not have.
- RectangleBase.Rect.SetHeight: it requires a non-zero destScaleY, for the
  same reason.
- Objects.ObjectManager.MoveToTop: it requires that groups are not
  nested, and that a raised group's members are not groups. The program
  never puts a group in a group (only video sources join groups), so one
  step up is the top.
- Group.Move: it requires that the members are not groups and are listed
  once, as above.
- Group.SetPos: the same requirement as Group.Move.
- Objects.ObjectManager.UngroupSiteIDGroups: the key order is passed in as
  `keys`. The precondition (`Enumerates`) forces it to be the ascending
  std::string order of the map's keys, and `Objects.EnumerationUnique`
  proves that only one such sequence exists.
- VideoListener.VideoListener.UpdatePixelCount: the count is a long and
  is treated as unbounded. Its 64-bit overflow is not modelled.
- VideoListener.VideoListener.SourceDeleted: the model gives back the
  area (`VideoSource.AreaRelease`). The source passes the unsigned
  negation of it, which adds 2^32 minus the area; see Findings.
- VideoSource.ResizeBuffer: returns the intended release, as in
  SourceDeleted; see Findings.
- InputHandler.InputHandler.HandleInvertSelection: it requires that every
  object is in the drawing list at most once, and that every selected
  movable object is in the selection. The source's erase loop assumes
  both: it searches the selection without checking for its end.
- GLUtil.Pow2: requires x <= 2^30. Past that, the C int doubling
  overflows, which is undefined behaviour.
- GravEntry.EntryFunc: it also stands for py/entry.py:1-34, an earlier
  revision that resolves and restores sys.path the same way. That
  revision's diagnostic prints are not modelled.
- Input event dispatch from wxWidgets (mouse moves, clicks and box
  selection geometry), the earth and camera handlers, the venue client
  controller and the session tree are not modelled.

## Findings

| source | as written | input that shows it | evidently intended | confidence | as-written member | corrected member |
|---|---|---|---|---|---|---|
| src/VideoListener.cpp:149-150 | `updatePixelCount( -( vwidth * vheight ) )` negates an unsigned int product, so on LP64 platforms (64-bit long) updatePixelCount(long) receives 2^32 minus the area | deleting a 640x480 source adds 4294660096 to the pixel count instead of subtracting 307200 | subtract the picture area from the count | not executed | VideoSource.AreaReleaseAsWritten (VideoSource.ReleaseAsWrittenExample, VideoSource.ReleaseAsWrittenOvershoots) | VideoSource.AreaRelease (used by VideoListener.VideoListener.SourceDeleted) |
| src/VideoSource.cpp:294 | resizeBuffer releases the old area with the same unsigned negation, which on LP64 platforms (64-bit long) is 2^32 minus the area | resizing a 640x480 picture adds 4294660096 before adding the new area | the count tracks the current area | not executed | VideoSource.AreaReleaseAsWritten | VideoSource.AreaRelease (used by VideoSource.ResizeBuffer; VideoSource.ResizesTrackArea) |
