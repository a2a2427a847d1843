// The RTP session table of src/SessionManager.cpp: one entry per joined
// address with its enabled and encryption flags and RTP timestamp, a count
// of video and of audio entries, and the list of video addresses that are
// rotated through one at a time, with its cursor (-1 when not rotating) and
// the address that was current before the last move. Creating, initialising
// and iterating the media library's sessions happen outside the model: the
// outcome of initialise() and the random initial timestamp are parameters.
module SessionManager {
  import Seqs

  /** sessionTS is a uint32_t. */
  const TSModulus: int := 0x1_0000_0000

  datatype SessionEntry = SessionEntry(address: string, encryptionKey: string, encryptionEnabled: bool,
                                       audio: bool, enabled: bool, sessionTS: int)

  /** The entry initSession pushes: enabled, no encryption, an empty key. */
  function NewEntry(address: string, audio: bool, ts: int): SessionEntry
  {
    SessionEntry(address, "", false, audio, true, ts)
  }

  /** The addresses of the entries, in order. */
  function Addresses(ss: seq<SessionEntry>): (r: seq<string>)
    ensures |r| == |ss| && forall j :: 0 <= j < |ss| ==> r[j] == ss[j].address
  {
    if |ss| == 0 then [] else Addresses(ss[..|ss| - 1]) + [ss[|ss| - 1].address]
  }

  /** Index of the first entry with the address, |ss| when there is none. */
  function Lookup(ss: seq<SessionEntry>, addr: string): (i: nat)
    ensures i <= |ss|
    ensures i < |ss| ==> ss[i].address == addr
    ensures forall j :: 0 <= j < i ==> ss[j].address != addr
    ensures i < |ss| <==> exists j :: 0 <= j < |ss| && ss[j].address == addr
  {
    Seqs.IndexOf(Addresses(ss), addr)
  }

  /** How many entries are audio (audio) or video (!audio) sessions. */
  function Count(ss: seq<SessionEntry>, audio: bool): (n: nat)
    ensures n <= |ss|
  {
    if |ss| == 0 then 0 else Count(ss[..|ss| - 1], audio) + (if ss[|ss| - 1].audio == audio then 1 else 0)
  }

  /** The table after removeSession(addr): the first entry with the address
      erased, or unchanged when there is none. */
  function Dropped(ss: seq<SessionEntry>, addr: string): seq<SessionEntry>
  {
    var i := Lookup(ss, addr);
    if i < |ss| then Seqs.RemoveAt(ss, i) else ss
  }

  /** The table after initSession(addr, audio): a new entry at the end when
      the session initialised, else unchanged. */
  function Added(ss: seq<SessionEntry>, addr: string, audio: bool, initialised: bool, ts: int): seq<SessionEntry>
  {
    if initialised then ss + [NewEntry(addr, audio, ts)] else ss
  }

  /** The table after a rotation step has moved to target: the previous
      session (last) is left and target joined when they differ, target is
      joined on the first rotation (lastPos is -1), and otherwise nothing
      changes. */
  function Switched(ss: seq<SessionEntry>, last: string, lastPos: int, target: string,
                    initialised: bool, ts: int): seq<SessionEntry>
  {
    if last != "" && last != target then Added(Dropped(ss, last), target, false, initialised, ts)
    else if lastPos == -1 then Added(ss, target, false, initialised, ts)
    else ss
  }

  /** One more entry of a kind adds one to that kind's count only. */
  lemma CountAppend(ss: seq<SessionEntry>, e: SessionEntry, audio: bool)
    ensures Count(ss + [e], audio) == Count(ss, audio) + (if e.audio == audio then 1 else 0)
  {
    assert (ss + [e])[..|ss|] == ss;
  }

  /** Every timestamp of the table fits in 32 bits. */
  predicate Stamped(ss: seq<SessionEntry>)
  {
    forall j :: 0 <= j < |ss| ==> 0 <= ss[j].sessionTS < TSModulus
  }

  /** A 32-bit stamp appended keeps the table's stamps 32-bit. */
  lemma StampsAppend(ss: seq<SessionEntry>, e: SessionEntry)
    requires Stamped(ss) && 0 <= e.sessionTS < TSModulus
    ensures Stamped(ss + [e])
  {
  }

  /** The count of a concatenation is the sum of the counts. */
  lemma {:induction false} CountConcat(a: seq<SessionEntry>, b: seq<SessionEntry>, audio: bool)
    ensures Count(a + b, audio) == Count(a, audio) + Count(b, audio)
    decreases |b|
  {
    if |b| == 0 {
      assert a + b == a;
    } else {
      var m := |b| - 1;
      CountConcat(a, b[..m], audio);
      assert (a + b)[..|a| + m] == a + b[..m];
    }
  }

  /** Erasing an entry takes one from its kind's count only. */
  lemma CountRemoveAt(ss: seq<SessionEntry>, i: nat, audio: bool)
    requires i < |ss|
    ensures Count(Seqs.RemoveAt(ss, i), audio) + (if ss[i].audio == audio then 1 else 0) == Count(ss, audio)
  {
    var x := [ss[i]];
    assert ss == ss[..i] + (x + ss[i + 1..]);
    CountConcat(ss[..i], x + ss[i + 1..], audio);
    CountConcat(x, ss[i + 1..], audio);
    CountConcat(ss[..i], ss[i + 1..], audio);
    assert x[..0] == [];
  }

  /** Entries of the same kinds, position by position, count the same. */
  lemma {:induction false} CountSameKinds(ss: seq<SessionEntry>, ts: seq<SessionEntry>, audio: bool)
    requires |ss| == |ts| && forall j :: 0 <= j < |ss| ==> ss[j].audio == ts[j].audio
    ensures Count(ss, audio) == Count(ts, audio)
    decreases |ss|
  {
    if |ss| > 0 {
      CountSameKinds(ss[..|ss| - 1], ts[..|ts| - 1], audio);
    }
  }

  /** A session is of exactly one kind. */
  lemma {:induction false} CountKinds(ss: seq<SessionEntry>)
    ensures Count(ss, true) + Count(ss, false) == |ss|
    decreases |ss|
  {
    if |ss| > 0 {
      CountKinds(ss[..|ss| - 1]);
    }
  }

  /** The cursor after one rotate over a list of n addresses. */
  function NextPos(pos: int, n: nat): (p: int)
    requires n > 0 && -1 <= pos < n
    ensures 0 <= p < n
    ensures p == (pos + 1) % n
  {
    if pos + 1 >= n then 0 else pos + 1
  }

  /** The cursor after k rotations, starting from not rotating, over a list
      of n addresses. */
  function Rotations(n: nat, k: nat): (p: int)
    requires n > 0
    ensures -1 <= p < n
  {
    if k == 0 then -1 else NextPos(Rotations(n, k - 1), n)
  }

  /** The first n rotations visit the addresses in list order. */
  lemma {:induction false} RotationsFirstCycle(n: nat, r: nat)
    requires r < n
    ensures Rotations(n, r + 1) == r
    decreases r
  {
    if r > 0 {
      RotationsFirstCycle(n, r - 1);
    }
  }

  /** After the last address rotation wraps to the first: every n rotations
      the cursor is back where it was. */
  lemma {:induction false} RotationsPeriodic(n: nat, k: nat)
    requires n > 0 && k > 0
    ensures Rotations(n, k + n) == Rotations(n, k)
    decreases k
  {
    if k == 1 {
      RotationsFirstCycle(n, n - 1);
    } else {
      RotationsPeriodic(n, k - 1);
    }
  }

  class SessionManager {
    var sessions: seq<SessionEntry>
    var videoSessionCount: int
    var audioSessionCount: int
    var videoRotateList: seq<string>
    var rotatePos: int
    var lastRotateSession: string

    /** The counters count the entries of each kind, timestamps are 32-bit
        and the cursor is -1 or a position of the rotation list. */
    predicate Valid()
      reads this
    {
      videoSessionCount == Count(sessions, false) &&
      audioSessionCount == Count(sessions, true) &&
      Stamped(sessions) &&
      -1 <= rotatePos < |videoRotateList|
    }

    constructor ()
      ensures Valid()
      ensures sessions == [] && videoRotateList == [] && rotatePos == -1 && lastRotateSession == ""
      ensures videoSessionCount == 0 && audioSessionCount == 0
    {
      sessions, videoRotateList := [], [];
      videoSessionCount, audioSessionCount := 0, 0;
      rotatePos, lastRotateSession := -1, "";
    }

    /** The search loop over the entries: the first with the address, or
        |sessions| when there is none. */
    method Find(addr: string) returns (i: nat)
      ensures i == Lookup(sessions, addr)
    {
      i := 0;
      while i < |sessions| && sessions[i].address != addr
        invariant i <= |sessions|
        invariant forall j :: 0 <= j < i ==> sessions[j].address != addr
      {
        i := i + 1;
      }
    }

    /** initSession: when the new session initialises, an enabled,
        unencrypted entry with an empty key and timestamp ts is pushed and
        the counter of its kind goes up by one; otherwise nothing changes. */
    method InitSession(address: string, audio: bool, initialised: bool, ts: int) returns (ok: bool)
      requires Valid() && 0 <= ts < TSModulus
      modifies this`sessions, this`videoSessionCount, this`audioSessionCount
      ensures Valid() && ok == initialised
      ensures sessions == Added(old(sessions), address, audio, initialised, ts)
      ensures audioSessionCount == old(audioSessionCount) + (if ok && audio then 1 else 0)
      ensures videoSessionCount == old(videoSessionCount) + (if ok && !audio then 1 else 0)
    {
      if !initialised {
        return false;
      }
      var e := NewEntry(address, audio, ts);
      CountAppend(sessions, e, true);
      CountAppend(sessions, e, false);
      StampsAppend(sessions, e);
      if audio {
        audioSessionCount := audioSessionCount + 1;
      } else {
        videoSessionCount := videoSessionCount + 1;
      }
      sessions := sessions + [e];
      ok := true;
    }

    /** removeSession: the first entry with the address is erased and the
        counter of its kind goes down by one; an unknown address changes
        nothing and answers false. */
    method RemoveSession(addr: string) returns (ok: bool)
      requires Valid()
      modifies this`sessions, this`videoSessionCount, this`audioSessionCount
      ensures Valid()
      ensures ok <==> addr in Addresses(old(sessions))
      ensures sessions == Dropped(old(sessions), addr)
      ensures var i := Lookup(old(sessions), addr);
              audioSessionCount == old(audioSessionCount) - (if ok && old(sessions)[i].audio then 1 else 0) &&
              videoSessionCount == old(videoSessionCount) - (if ok && !old(sessions)[i].audio then 1 else 0)
    {
      var i := Find(addr);
      if i == |sessions| {
        return false;
      }
      CountRemoveAt(sessions, i, true);
      CountRemoveAt(sessions, i, false);
      if sessions[i].audio {
        audioSessionCount := audioSessionCount - 1;
      } else {
        videoSessionCount := videoSessionCount - 1;
      }
      sessions := Seqs.RemoveAt(sessions, i);
      ok := true;
    }

    /** addRotatedSession: the address joins the end of the rotation list
        (audio is not used: only video is rotated). */
    method AddRotatedSession(addr: string, audio: bool)
      requires Valid()
      modifies this`videoRotateList
      ensures Valid() && videoRotateList == old(videoRotateList) + [addr]
    {
      videoRotateList := videoRotateList + [addr];
    }

    /** removeRotatedSession: the first occurrence of the address leaves the
        rotation list, the cursor steps back when it was at or past it, and
        the address's session, when joined, is removed; an address not in
        the list changes nothing. */
    method RemoveRotatedSession(addr: string, audio: bool)
      requires Valid()
      modifies this`videoRotateList, this`rotatePos, this`sessions, this`videoSessionCount, this`audioSessionCount
      ensures Valid()
      ensures var i := Seqs.IndexOf(old(videoRotateList), addr);
              if i == |old(videoRotateList)| then
                videoRotateList == old(videoRotateList) && rotatePos == old(rotatePos) && sessions == old(sessions)
              else
                videoRotateList == Seqs.RemoveAt(old(videoRotateList), i) &&
                rotatePos == (if i <= old(rotatePos) then old(rotatePos) - 1 else old(rotatePos)) &&
                sessions == Dropped(old(sessions), addr)
    {
      var i := Seqs.Position(videoRotateList, addr);
      if i == |videoRotateList| {
        return;
      }
      videoRotateList := Seqs.RemoveAt(videoRotateList, i);
      if i <= rotatePos {
        rotatePos := rotatePos - 1;
      }
      var j := Find(addr);
      if j == |sessions| {
        return;
      }
      var _ := RemoveSession(sessions[j].address);
    }

    /** The session the rotation is on: the list entry at the cursor, or ""
        when not rotating or the cursor is past the list. */
    function CurrentRotateSession(): (s: string)
      requires rotatePos >= -1
      reads this
      ensures 0 <= rotatePos < |videoRotateList| ==> s == videoRotateList[rotatePos]
      ensures !(0 <= rotatePos < |videoRotateList|) ==> s == ""
    {
      if rotatePos != -1 && rotatePos < |videoRotateList| then videoRotateList[rotatePos] else ""
    }

    /** With the cursor kept in range, the size guard of
        getCurrentRotateSession never fails: "" means not rotating, unless
        the list itself holds "". */
    lemma CurrentWhileRotating()
      requires Valid()
      ensures rotatePos != -1 ==> CurrentRotateSession() == videoRotateList[rotatePos]
      ensures rotatePos == -1 ==> CurrentRotateSession() == ""
      ensures CurrentRotateSession() == "" ==> rotatePos == -1 || "" in videoRotateList
    {
    }

    /** rotate: the session at the cursor is remembered as the last one; on
        a non-empty list the cursor moves one on, wrapping to the start, and
        the session switches from the last one to the new current one. */
    method Rotate(audio: bool, initialised: bool, ts: int)
      requires Valid() && 0 <= ts < TSModulus
      modifies this`rotatePos, this`lastRotateSession, this`sessions, this`videoSessionCount, this`audioSessionCount
      ensures Valid() && videoRotateList == old(videoRotateList)
      ensures lastRotateSession == if old(rotatePos) != -1 then videoRotateList[old(rotatePos)] else old(lastRotateSession)
      ensures |videoRotateList| == 0 ==> rotatePos == old(rotatePos) && sessions == old(sessions)
      ensures |videoRotateList| > 0 ==>
                rotatePos == (old(rotatePos) + 1) % |videoRotateList| == NextPos(old(rotatePos), |videoRotateList|) &&
                sessions == Switched(old(sessions), lastRotateSession, old(rotatePos), videoRotateList[rotatePos], initialised, ts)
    {
      var numSessions := |videoRotateList|;
      var lastRotatePos := rotatePos;
      if lastRotatePos != -1 {
        lastRotateSession := videoRotateList[rotatePos];
      }
      if numSessions == 0 {
        return;
      }
      rotatePos := rotatePos + 1;
      if rotatePos >= numSessions {
        rotatePos := 0;
      }
      SwitchTo(lastRotatePos, initialised, ts);
    }

    /** The switch rotate and rotateTo end with, once the cursor is on the
        new current address. */
    method SwitchTo(lastRotatePos: int, initialised: bool, ts: int)
      requires Valid() && 0 <= rotatePos < |videoRotateList| && 0 <= ts < TSModulus
      modifies this`sessions, this`videoSessionCount, this`audioSessionCount
      ensures Valid()
      ensures sessions == Switched(old(sessions), lastRotateSession, lastRotatePos, videoRotateList[rotatePos], initialised, ts)
    {
      var target := videoRotateList[rotatePos];
      if lastRotateSession != "" && lastRotateSession != target {
        var _ := RemoveSession(lastRotateSession);
        var _ := InitSession(target, false, initialised, ts);
      } else if lastRotatePos == -1 {
        var _ := InitSession(target, false, initialised, ts);
      }
    }

    /** rotateTo: like rotate, but the cursor moves to the first occurrence
        of addr; an empty list or an address not in it leaves the cursor
        and the sessions as they were (the last session is still
        remembered). */
    method RotateTo(addr: string, audio: bool, initialised: bool, ts: int)
      requires Valid() && 0 <= ts < TSModulus
      modifies this`rotatePos, this`lastRotateSession, this`sessions, this`videoSessionCount, this`audioSessionCount
      ensures Valid() && videoRotateList == old(videoRotateList)
      ensures lastRotateSession == if old(rotatePos) != -1 then videoRotateList[old(rotatePos)] else old(lastRotateSession)
      ensures addr !in videoRotateList ==> rotatePos == old(rotatePos) && sessions == old(sessions)
      ensures addr in videoRotateList ==>
                rotatePos == Seqs.IndexOf(videoRotateList, addr) &&
                sessions == Switched(old(sessions), lastRotateSession, old(rotatePos), addr, initialised, ts)
    {
      var numSessions := |videoRotateList|;
      var lastRotatePos := rotatePos;
      if lastRotatePos != -1 {
        lastRotateSession := videoRotateList[rotatePos];
      }
      if numSessions == 0 {
        return;
      }
      var i := Seqs.Position(videoRotateList, addr);
      if i == |videoRotateList| {
        return;
      }
      rotatePos := i;
      SwitchTo(lastRotatePos, initialised, ts);
    }

    /** unrotate: rotation stops (cursor -1, no last session) and the
        session it was on, if any, is removed. */
    method Unrotate(audio: bool)
      requires Valid()
      modifies this`rotatePos, this`lastRotateSession, this`sessions, this`videoSessionCount, this`audioSessionCount
      ensures Valid() && rotatePos == -1 && lastRotateSession == "" && CurrentRotateSession() == ""
      ensures var current := old(CurrentRotateSession());
              sessions == if current != "" then Dropped(old(sessions), current) else old(sessions)
    {
      var current := CurrentRotateSession();
      rotatePos := -1;
      lastRotateSession := "";
      if current != "" {
        var _ := RemoveSession(current);
      }
    }

    /** setSessionEnable: the first entry with the address is (un)marked
        for iteration; an unknown address answers false. */
    method SetSessionEnable(addr: string, enable: bool) returns (ok: bool)
      requires Valid()
      modifies this`sessions
      ensures Valid()
      ensures var i := Lookup(old(sessions), addr);
              (ok <==> i < |old(sessions)|) &&
              sessions == if ok then old(sessions)[i := old(sessions)[i].(enabled := enable)] else old(sessions)
    {
      var i := Find(addr);
      if i == |sessions| {
        return false;
      }
      CountSameKinds(sessions, sessions[i := sessions[i].(enabled := enable)], true);
      CountSameKinds(sessions, sessions[i := sessions[i].(enabled := enable)], false);
      sessions := sessions[i := sessions[i].(enabled := enable)];
      ok := true;
    }

    /** isSessionEnabled: the flag of the first entry with the address;
        false for an unknown address. */
    method IsSessionEnabled(addr: string) returns (r: bool)
      ensures r <==> exists i :: 0 <= i < |sessions| && sessions[i].address == addr &&
                                 sessions[i].enabled && forall j :: 0 <= j < i ==> sessions[j].address != addr
    {
      var i := Find(addr);
      r := i < |sessions| && sessions[i].enabled;
    }

    /** setEncryptionKey: the first entry with the address stores the key
        and turns encryption on; an unknown address answers false. */
    method SetEncryptionKey(addr: string, key: string) returns (ok: bool)
      requires Valid()
      modifies this`sessions
      ensures Valid()
      ensures var i := Lookup(old(sessions), addr);
              (ok <==> i < |old(sessions)|) &&
              sessions == if ok then old(sessions)[i := old(sessions)[i].(encryptionKey := key, encryptionEnabled := true)]
                          else old(sessions)
    {
      var i := Find(addr);
      if i == |sessions| {
        return false;
      }
      var e := sessions[i].(encryptionKey := key, encryptionEnabled := true);
      CountSameKinds(sessions, sessions[i := e], true);
      CountSameKinds(sessions, sessions[i := e], false);
      sessions := sessions[i := e];
      ok := true;
    }

    /** disableEncryption: the first entry with the address turns
        encryption off but keeps its key; an unknown address answers
        false. */
    method DisableEncryption(addr: string) returns (ok: bool)
      requires Valid()
      modifies this`sessions
      ensures Valid()
      ensures var i := Lookup(old(sessions), addr);
              (ok <==> i < |old(sessions)|) &&
              sessions == if ok then old(sessions)[i := old(sessions)[i].(encryptionEnabled := false)] else old(sessions)
    {
      var i := Find(addr);
      if i == |sessions| {
        return false;
      }
      var e := sessions[i].(encryptionEnabled := false);
      CountSameKinds(sessions, sessions[i := e], true);
      CountSameKinds(sessions, sessions[i := e], false);
      sessions := sessions[i := e];
      ok := true;
    }

    /** isEncryptionEnabled: the flag of the first entry with the address;
        false for an unknown address. */
    method IsEncryptionEnabled(addr: string) returns (r: bool)
      ensures r <==> exists i :: 0 <= i < |sessions| && sessions[i].address == addr &&
                                 sessions[i].encryptionEnabled && forall j :: 0 <= j < i ==> sessions[j].address != addr
    {
      var i := Find(addr);
      r := i < |sessions| && sessions[i].encryptionEnabled;
    }

    /** iterateSessions: every enabled entry's timestamp advances by one
        (modulo 2^32), the others are untouched, and the answer is whether
        any entry is enabled. */
    method IterateSessions() returns (haveSessions: bool)
      requires Valid()
      modifies this`sessions
      ensures Valid() && |sessions| == |old(sessions)|
      ensures haveSessions <==> exists j :: 0 <= j < |sessions| && old(sessions)[j].enabled
      ensures forall j :: 0 <= j < |sessions| ==>
                sessions[j] == if old(sessions)[j].enabled
                               then old(sessions)[j].(sessionTS := (old(sessions)[j].sessionTS + 1) % TSModulus)
                               else old(sessions)[j]
    {
      ghost var ss := sessions;
      haveSessions := false;
      var i := 0;
      while i < |sessions|
        invariant 0 <= i <= |sessions| == |ss|
        invariant haveSessions <==> exists j :: 0 <= j < i && ss[j].enabled
        invariant forall j :: 0 <= j < |ss| ==>
                    sessions[j] == if j < i && ss[j].enabled then ss[j].(sessionTS := (ss[j].sessionTS + 1) % TSModulus) else ss[j]
      {
        if sessions[i].enabled {
          sessions := sessions[i := sessions[i].(sessionTS := (sessions[i].sessionTS + 1) % TSModulus)];
        }
        haveSessions := haveSessions || sessions[i].enabled;
        i := i + 1;
      }
      CountSameKinds(ss, sessions, true);
      CountSameKinds(ss, sessions, false);
    }

    /** getVideoSessionCount: the number of video entries. */
    method GetVideoSessionCount() returns (n: int)
      requires Valid()
      ensures n == Count(sessions, false) && n == |sessions| - Count(sessions, true)
    {
      CountKinds(sessions);
      n := videoSessionCount;
    }

    /** getAudioSessionCount: the number of audio entries. */
    method GetAudioSessionCount() returns (n: int)
      requires Valid()
      ensures n == Count(sessions, true) && n == |sessions| - Count(sessions, false)
    {
      CountKinds(sessions);
      n := audioSessionCount;
    }
  }
}
