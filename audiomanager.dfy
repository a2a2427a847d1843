// The audio side of a session (src/AudioManager.cpp): one entry per
// linear-16 audio stream, with the stream's SSRC, the site it announced in
// an RTCP APP packet named "site" (section 6.7 of RFC 3550), its CNAME and
// its level meter. Levels are read as the mean over the entries a name
// matches. The meters themselves belong to the media library: a meter here
// is its current level, its running average and a count of the times that
// average was restarted.
module AudioManager {
  import Seqs

  /** A level meter of the media library. */
  class Meter {
    var level: real
    var average: real
    /** How many times the running average was restarted. */
    var resets: nat

    constructor (level0: real)
      ensures level == level0 && average == level0 && resets == 0
    {
      level, average, resets := level0, level0, 0;
    }

    /** resetAverage: the running average starts over; what it then reads
        is the media library's. */
    method ResetAverage()
      modifies this`resets
      ensures resets == old(resets) + 1
    {
      resets := resets + 1;
    }
  }

  /** AudioSource: a stream's SSRC and session, the site and CNAME it
      announced, and its own meter. */
  class AudioSource {
    const ssrc: int
    const session: int
    var siteID: string
    var cName: string
    const meter: Meter

    constructor (ssrc0: int, session0: int, m: Meter)
      ensures ssrc == ssrc0 && session == session0 && meter == m && siteID == "" && cName == ""
    {
      ssrc, session, meter := ssrc0, session0, m;
      siteID, cName := "", "";
    }
  }

  /** Whether a source is one getLevel averages for name: its site (or, with
      cnames, its CNAME) is name, or name is empty. */
  predicate Matches(s: AudioSource, name: string, cnames: bool)
    reads s
  {
    (!cnames && s.siteID == name) || (cnames && s.cName == name) || name == ""
  }

  /** Which of ss match, in order. */
  function Mask(ss: seq<AudioSource>, name: string, cnames: bool): (r: seq<bool>)
    reads ss
    ensures |r| == |ss| && forall j :: 0 <= j < |ss| ==> (r[j] <==> Matches(ss[j], name, cnames))
  {
    if |ss| == 0 then [] else Mask(ss[..|ss| - 1], name, cnames) + [Matches(ss[|ss| - 1], name, cnames)]
  }

  function Meters(ss: seq<AudioSource>): set<Meter>
  {
    set s | s in ss :: s.meter
  }

  /** What each source's meter reads: its running average with avg, else
      its level. */
  function Readings(ss: seq<AudioSource>, avg: bool): (r: seq<real>)
    reads Meters(ss)
    ensures |r| == |ss|
    ensures forall j :: 0 <= j < |ss| ==> r[j] == if avg then ss[j].meter.average else ss[j].meter.level
  {
    if |ss| == 0 then []
    else
      var last := ss[|ss| - 1];
      assert Meters(ss[..|ss| - 1]) <= Meters(ss);
      Readings(ss[..|ss| - 1], avg) + [if avg then last.meter.average else last.meter.level]
  }

  /** How many times each source's meter was restarted. */
  function Resets(ss: seq<AudioSource>): (r: seq<nat>)
    reads Meters(ss)
    ensures |r| == |ss| && forall j :: 0 <= j < |ss| ==> r[j] == ss[j].meter.resets
  {
    if |ss| == 0 then []
    else
      assert Meters(ss[..|ss| - 1]) <= Meters(ss);
      Resets(ss[..|ss| - 1]) + [ss[|ss| - 1].meter.resets]
  }

  /** The sum of the readings the mask picks among the first n. */
  function Total(vals: seq<real>, mask: seq<bool>, n: nat): real
    requires |vals| == |mask| && n <= |mask|
  {
    if n == 0 then 0.0 else Total(vals, mask, n - 1) + (if mask[n - 1] then vals[n - 1] else 0.0)
  }

  /** How many of the first n the mask picks. */
  function Hits(mask: seq<bool>, n: nat): (c: nat)
    requires n <= |mask|
    ensures c <= n
  {
    if n == 0 then 0 else Hits(mask, n - 1) + (if mask[n - 1] then 1 else 0)
  }

  /** getLevel's result from the sum and the count of the matched
      readings: -2 when nothing matched, the one reading when one matched,
      else the sum over the count. */
  function Average(total: real, count: int): real
  {
    if count == 1 then total else if count > 1 then total / count as real else -2.0
  }

  /** getLevel's result over the readings the mask picks. */
  function Mean(vals: seq<real>, mask: seq<bool>): real
    requires |vals| == |mask|
  {
    Average(Total(vals, mask, |mask|), Hits(mask, |mask|))
  }

  /** Nothing picked exactly when the mask is all false. */
  lemma {:induction false} NoHits(mask: seq<bool>, n: nat)
    requires n <= |mask|
    ensures Hits(mask, n) == 0 <==> forall j :: 0 <= j < n ==> !mask[j]
    decreases n
  {
    if n > 0 {
      NoHits(mask, n - 1);
    }
  }

  /** c copies of a added up. */
  function Times(a: real, c: nat): real
  {
    if c == 0 then 0.0 else Times(a, c - 1) + a
  }

  lemma {:induction false} TimesIsProduct(a: real, c: nat)
    ensures Times(a, c) == a * c as real
    decreases c
  {
    if c > 0 {
      TimesIsProduct(a, c - 1);
      assert a * c as real == a * (c - 1) as real + a;
    }
  }

  /** The picked readings add up to between count copies of the least and
      count copies of the greatest bound they keep to. */
  lemma {:induction false} TotalBounds(vals: seq<real>, mask: seq<bool>, n: nat, lo: real, hi: real)
    requires |vals| == |mask| && n <= |mask|
    requires forall j :: 0 <= j < n && mask[j] ==> lo <= vals[j] <= hi
    ensures Times(lo, Hits(mask, n)) <= Total(vals, mask, n) <= Times(hi, Hits(mask, n))
    decreases n
  {
    if n > 0 {
      TotalBounds(vals, mask, n - 1, lo, hi);
    }
  }

  /** A positive factor can be cancelled from both sides of an inequality. */
  lemma CancelFactor(x: real, y: real, c: real)
    requires c > 0.0 && x * c <= y * c
    ensures x <= y
  {
    assert (y - x) * c >= 0.0;
  }

  /** Over a positive count the average is the quotient, which lies within
      bounds when the sum lies within count copies of them. */
  lemma QuotientBounds(total: real, count: nat, lo: real, hi: real)
    requires count > 0 && Times(lo, count) <= total <= Times(hi, count)
    ensures Average(total, count) == total / count as real
    ensures lo <= Average(total, count) <= hi
  {
    TimesIsProduct(lo, count);
    TimesIsProduct(hi, count);
    var c := count as real;
    var q := total / c;
    assert q * c == total by {
      assert c != 0.0;
    }
    assert Average(total, count) == q by {
      if count == 1 {
        assert c == 1.0;
      }
    }
    CancelFactor(lo, q, c);
    CancelFactor(q, hi, c);
  }

  /** With no source matching, the level is -2. */
  lemma NoMatchReadsMinusTwo(vals: seq<real>, mask: seq<bool>)
    requires |vals| == |mask|
    requires forall j :: 0 <= j < |mask| ==> !mask[j]
    ensures Mean(vals, mask) == -2.0
  {
    NoHits(mask, |mask|);
  }

  /** With some source matching, the level is the mean of the matched
      readings: their sum over their count, and it lies within any bounds
      they keep to. */
  lemma MeanIsAverage(vals: seq<real>, mask: seq<bool>, k: int, lo: real, hi: real)
    requires |vals| == |mask| && 0 <= k < |mask| && mask[k]
    requires forall j :: 0 <= j < |mask| && mask[j] ==> lo <= vals[j] <= hi
    ensures Hits(mask, |mask|) > 0
    ensures Mean(vals, mask) == Total(vals, mask, |mask|) / Hits(mask, |mask|) as real
    ensures lo <= Mean(vals, mask) <= hi
  {
    var count := Hits(mask, |mask|);
    var total := Total(vals, mask, |mask|);
    NoHits(mask, |mask|);
    assert count != 0 by {
      assert !mask[k] ==> false;
    }
    TotalBounds(vals, mask, |mask|, lo, hi);
    QuotientBounds(total, count, lo, hi);
    assert Mean(vals, mask) == Average(total, count);
  }

  /** The empty name matches every source. */
  lemma EmptyNameMatchesAll(ss: seq<AudioSource>, cnames: bool)
    ensures forall j :: 0 <= j < |ss| ==> Mask(ss, "", cnames)[j]
    ensures Hits(Mask(ss, "", cnames), |ss|) == |ss|
  {
    var mask := Mask(ss, "", cnames);
    AllHit(mask, |ss|);
  }

  lemma {:induction false} AllHit(mask: seq<bool>, n: nat)
    requires n <= |mask| && forall j :: 0 <= j < n ==> mask[j]
    ensures Hits(mask, n) == n
    decreases n
  {
    if n > 0 {
      AllHit(mask, n - 1);
    }
  }

  /** Position of the first source with the SSRC, or |ss|. */
  function SsrcIndex(ss: seq<AudioSource>, ssrc: int): (i: nat)
    ensures i <= |ss|
    ensures i < |ss| ==> ss[i].ssrc == ssrc
    ensures forall j :: 0 <= j < i ==> ss[j].ssrc != ssrc
  {
    if |ss| == 0 then 0
    else if ss[0].ssrc == ssrc then 0
    else 1 + SsrcIndex(ss[1..], ssrc)
  }

  class AudioManager {
    var sources: seq<AudioSource>

    /** Every source is listed once and reads a meter of its own. */
    predicate Valid()
      reads this
    {
      Seqs.Distinct(sources) &&
      forall i, j :: 0 <= i < j < |sources| ==> sources[i].meter != sources[j].meter
    }

    constructor ()
      ensures sources == [] && Valid()
    {
      sources := [];
    }

    /** getLevel: the mean reading (running averages with avg, each
        restarted once it is read) over the sources whose site (or CNAME,
        with cnames) is name, or over all of them when name is empty; -2
        when none match. */
    method GetLevel(name: string, avg: bool, cnames: bool) returns (level: real)
      requires Valid()
      modifies Meters(sources)`resets
      ensures level == Mean(old(Readings(sources, avg)), Mask(sources, name, cnames))
      ensures forall j :: 0 <= j < |sources| ==>
                sources[j].meter.resets == old(sources[j].meter.resets) + (if avg && Matches(sources[j], name, cnames) then 1 else 0)
    {
      ghost var vals := Readings(sources, avg);
      ghost var mask := Mask(sources, name, cnames);
      ghost var r0 := Resets(sources);
      var temp := 0.0;
      var count := 0;
      var i := 0;
      while i < |sources|
        invariant 0 <= i <= |sources|
        invariant vals == Readings(sources, avg) && mask == Mask(sources, name, cnames)
        invariant temp == Total(vals, mask, i) && count == Hits(mask, i)
        invariant forall j :: 0 <= j < |sources| ==>
                    sources[j].meter.resets == r0[j] + (if avg && j < i && mask[j] then 1 else 0)
      {
        i, temp, count := ReadNext(i, name, avg, cnames, vals, mask, r0, temp, count);
      }
      assert Mask(sources, name, cnames) == mask;
      level := Average(temp, count);
    }

    /** One turn of getLevel's loop: a matching source adds its reading to
        the sum (restarting the average it read) and one to the count. */
    method ReadNext(i: int, name: string, avg: bool, cnames: bool, ghost vals: seq<real>, ghost mask: seq<bool>,
                    ghost r0: seq<nat>, temp: real, count: int)
      returns (next: int, temp': real, count': int)
      requires Valid() && 0 <= i < |sources|
      requires vals == Readings(sources, avg) && mask == Mask(sources, name, cnames) && |r0| == |sources|
      requires temp == Total(vals, mask, i) && count == Hits(mask, i)
      requires forall j :: 0 <= j < |sources| ==>
                 sources[j].meter.resets == r0[j] + (if avg && j < i && mask[j] then 1 else 0)
      modifies {sources[i].meter}`resets
      ensures next == i + 1
      ensures Readings(sources, avg) == vals && Mask(sources, name, cnames) == mask
      ensures temp' == Total(vals, mask, next) && count' == Hits(mask, next)
      ensures forall j :: 0 <= j < |sources| ==>
                sources[j].meter.resets == r0[j] + (if avg && j < next && mask[j] then 1 else 0)
    {
      var s := sources[i];
      temp', count' := temp, count;
      if Matches(s, name, cnames) {
        if avg {
          temp' := temp + s.meter.average;
          s.meter.ResetAverage();
        } else {
          temp' := temp + s.meter.level;
        }
        count' := count + 1;
      }
      next := i + 1;
    }

    /** getLevelAvg: getLevel over running averages, matching by site. */
    method GetLevelAvg(name: string) returns (level: real)
      requires Valid()
      modifies Meters(sources)`resets
      ensures level == Mean(old(Readings(sources, true)), Mask(sources, name, false))
      ensures forall j :: 0 <= j < |sources| ==>
                sources[j].meter.resets == old(sources[j].meter.resets) + (if Matches(sources[j], name, false) then 1 else 0)
    {
      level := GetLevel(name, true, false);
    }

    /** getSourceCount. */
    method GetSourceCount() returns (n: nat)
      ensures n == |sources|
    {
      n := |sources|;
    }

    /** updateNames: every entry whose session reports a CNAME for its SSRC
        (sdes, keyed by session and SSRC) takes that CNAME; the others keep
        theirs. */
    method UpdateNames(sdes: map<(int, int), string>)
      requires Valid()
      modifies sources`cName
      ensures forall s :: s in sources ==>
                s.cName == if (s.session, s.ssrc) in sdes then sdes[(s.session, s.ssrc)] else old(s.cName)
    {
      var i := 0;
      while i < |sources|
        invariant 0 <= i <= |sources|
        invariant forall j :: 0 <= j < |sources| ==>
                    sources[j].cName == if j < i && (sources[j].session, sources[j].ssrc) in sdes
                                        then sdes[(sources[j].session, sources[j].ssrc)] else old(sources[j].cName)
      {
        var key := (sources[i].session, sources[i].ssrc);
        if key in sdes {
          sources[i].cName := sdes[key];
        }
        i := i + 1;
      }
    }

    /** vpmsession_source_created: a linear-16 stream gets an entry at the
        end, with no site or CNAME yet and a meter of its own; any other
        decoder is only logged. */
    method SourceCreated(session: int, ssrc: int, linear16: bool) returns (added: AudioSource?)
      requires Valid()
      modifies this`sources
      ensures Valid()
      ensures !linear16 <==> added == null
      ensures !linear16 ==> sources == old(sources)
      ensures linear16 ==>
                added != null && fresh(added) && fresh(added.meter) && sources == old(sources) + [added] &&
                added.ssrc == ssrc && added.session == session && added.siteID == "" && added.cName == ""
    {
      if linear16 {
        var m := new Meter(0.0);
        added := new AudioSource(ssrc, session, m);
        sources := sources + [added];
      } else {
        added := null;
      }
    }

    /** vpmsession_source_deleted: the first entry with the SSRC is erased,
        the others keeping their order; an unknown SSRC changes nothing. */
    method SourceDeleted(ssrc: int)
      requires Valid()
      modifies this`sources
      ensures Valid()
      ensures var i := SsrcIndex(old(sources), ssrc);
              if i < |old(sources)| then sources == Seqs.RemoveAt(old(sources), i) else sources == old(sources)
    {
      var i := 0;
      while i < |sources|
        invariant 0 <= i <= |sources| && sources == old(sources)
        invariant forall j :: 0 <= j < i ==> sources[j].ssrc != ssrc
      {
        if sources[i].ssrc == ssrc {
          sources := Seqs.RemoveAt(sources, i);
          return;
        }
        i := i + 1;
      }
    }

    /** vpmsession_source_app: an APP packet named "site" (its name is four
        octets) sets the site of every entry with the SSRC to the packet's
        data; any other name changes nothing. */
    method SourceApp(ssrc: int, app: string, data: string)
      requires Valid() && |app| >= 4
      modifies sources`siteID
      ensures app[..4] != "site" ==> forall s :: s in sources ==> s.siteID == old(s.siteID)
      ensures app[..4] == "site" ==>
                forall s :: s in sources ==> s.siteID == if s.ssrc == ssrc then data else old(s.siteID)
    {
      if app[..4] == "site" {
        var i := 0;
        while i < |sources|
          invariant 0 <= i <= |sources|
          invariant forall j :: 0 <= j < |sources| ==>
                      sources[j].siteID == if j < i && sources[j].ssrc == ssrc then data else old(sources[j].siteID)
        {
          if sources[i].ssrc == ssrc {
            sources[i].siteID := data;
          }
          i := i + 1;
        }
      }
    }
  }

  /** After an APP "site" packet for an SSRC, reading the level by that site
      counts every entry with the SSRC. */
  lemma SiteAnnounced(ss: seq<AudioSource>, ssrc: int, data: string)
    requires forall s :: s in ss && s.ssrc == ssrc ==> s.siteID == data
    ensures forall j :: 0 <= j < |ss| && ss[j].ssrc == ssrc ==> Mask(ss, data, false)[j]
  {
  }
}
