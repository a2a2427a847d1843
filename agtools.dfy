// The Access Grid helpers of py/AGTools.py: find a valid local venue
// client, list the exits of its venue, ask it to enter another venue, and
// collect the venue's streams of one type as "host/port" -> encryption key.
// A venue client is what its remote calls answer: each either returns a
// value or raises.
module AGTools {
  import opened Wrappers
  import Text

  /** A remote call that returns a value or raises an exception. */
  datatype Call<T> = Returns(value: T) | Raises

  datatype Location = Location(host: string, port: nat)

  /** A stream description: its name, network location, encryption key
      (None when unencrypted) and the types of its capabilities. */
  datatype Stream = Stream(name: string, location: Location, encryptionKey: Option<string>, capabilities: seq<string>)

  /** A connection of the venue to another one. */
  datatype Exit = Exit(name: string, uri: string)

  /** What the venue client at a URL answers to IsValid, GetConnections and
      GetStreams. */
  datatype VenueClient = VenueClient(isValid: Call<bool>, connections: Call<seq<Exit>>, streams: Call<seq<Stream>>)

  /** GetClient: the client when it answers that it is valid; None when it
      answers that it is not or its validation raises. */
  function GetClient(c: VenueClient): (r: Option<VenueClient>)
    ensures r.Some? <==> c.isValid == Returns(true)
    ensures r.Some? ==> r.value == c
  {
    match c.isValid
    case Returns(valid) => if valid then Some(c) else None
    case Raises => None
  }

  /** Position of the first URL whose client is valid, or |urls|. */
  function FirstValid(urls: seq<string>, clientAt: string -> VenueClient): (i: nat)
    ensures i <= |urls|
    ensures i < |urls| ==> GetClient(clientAt(urls[i])).Some?
    ensures forall j :: 0 <= j < i ==> GetClient(clientAt(urls[j])).None?
  {
    if |urls| == 0 then 0
    else if GetClient(clientAt(urls[0])).Some? then 0
    else 1 + FirstValid(urls[1..], clientAt)
  }

  /** GetFirstValidClientURL over the URLs the local venue clients
      register: the first with a valid client, else "". */
  function GetFirstValidClientURL(urls: seq<string>, clientAt: string -> VenueClient): (url: string)
  {
    var i := FirstValid(urls, clientAt);
    if i < |urls| then urls[i] else ""
  }

  /** The URL found is one whose client is valid, and every URL before it
      has none; "" means no listed client is valid (or one is listed as ""). */
  lemma FirstValidClient(urls: seq<string>, clientAt: string -> VenueClient)
    ensures var url := GetFirstValidClientURL(urls, clientAt);
            (url != "" ==> exists i :: 0 <= i < |urls| && urls[i] == url && GetClient(clientAt(url)).Some? &&
                                       forall j :: 0 <= j < i ==> GetClient(clientAt(urls[j])).None?)
    ensures (forall j :: 0 <= j < |urls| ==> GetClient(clientAt(urls[j])).None?) ==>
              GetFirstValidClientURL(urls, clientAt) == ""
  {
  }

  /** dict() of a list of pairs: a later pair for the same key wins. */
  function Dict(pairs: seq<(string, string)>): (d: map<string, string>)
    ensures forall k :: k in d <==> exists i :: 0 <= i < |pairs| && pairs[i].0 == k
  {
    if |pairs| == 0 then map[]
    else
      var n := |pairs| - 1;
      Dict(pairs[..n])[pairs[n].0 := pairs[n].1]
  }

  /** The value of a key is that of the last pair with the key. */
  lemma {:induction false} DictLastWins(pairs: seq<(string, string)>, i: nat)
    requires i < |pairs| && forall j :: i < j < |pairs| ==> pairs[j].0 != pairs[i].0
    ensures pairs[i].0 in Dict(pairs) && Dict(pairs)[pairs[i].0] == pairs[i].1
    decreases |pairs|
  {
    var n := |pairs| - 1;
    if i < n {
      DictLastWins(pairs[..n], i);
    }
  }

  function ExitPairs(exits: seq<Exit>): (r: seq<(string, string)>)
    ensures |r| == |exits| && forall i :: 0 <= i < |exits| ==> r[i] == (exits[i].name, exits[i].uri)
  {
    seq(|exits|, i requires 0 <= i < |exits| => (exits[i].name, exits[i].uri))
  }

  /** GetExits: {} when the client is not valid or GetConnections raises;
      otherwise each exit's name mapped to its URI. */
  function GetExits(c: VenueClient): (d: map<string, string>)
  {
    if GetClient(c).None? then map[]
    else match c.connections
      case Raises => map[]
      case Returns(exits) => Dict(ExitPairs(exits))
  }

  /** The exits are keyed by name, each name holding the URI of its last
      exit. */
  lemma ExitsByName(c: VenueClient, i: nat)
    requires GetClient(c).Some? && c.connections.Returns? && i < |c.connections.value|
    requires var exits := c.connections.value;
             forall j :: i < j < |exits| ==> exits[j].name != exits[i].name
    ensures var exits := c.connections.value;
            (forall k :: k in GetExits(c) <==> exists j :: 0 <= j < |exits| && exits[j].name == k) &&
            GetExits(c)[exits[i].name] == exits[i].uri
  {
    DictLastWins(ExitPairs(c.connections.value), i);
  }

  /** Without a valid client, or when GetConnections raises, there are no
      exits. */
  lemma NoExitsWithoutClient(c: VenueClient)
    requires GetClient(c).None? || c.connections.Raises?
    ensures GetExits(c) == map[]
  {
  }

  /** EnterVenue: the venue the client is asked to enter, None when the
      client is not valid and so is not asked. */
  function EnterVenue(c: VenueClient, venueURL: string): (entered: Option<string>)
    ensures entered.Some? <==> c.isValid == Returns(true)
    ensures entered.Some? ==> entered.value == venueURL
  {
    if GetClient(c).None? then None else Some(venueURL)
  }

  /** The "host/port" a stream is listed under. */
  function Format(s: Stream): string
  {
    s.location.host + "/" + Text.Decimal(s.location.port)
  }

  /** The stream's encryption key, or '__NO_KEY__' when it has none or an
      empty one (a false value in Python). */
  function Key(s: Stream): (k: string)
    ensures k != ""
    ensures (s.encryptionKey.Some? && s.encryptionKey.value != "") ==> k == s.encryptionKey.value
  {
    match s.encryptionKey
    case None => "__NO_KEY__"
    case Some(key) => if key == "" then "__NO_KEY__" else key
  }

  /** A host without '/' and the port can be read back from the key: split
      at '/', the first piece is the host and the second the port's digits. */
  lemma FormatParses(s: Stream)
    requires '/' !in s.location.host
    ensures var parts := Text.Split(Format(s), '/');
            |parts| == 2 && parts[0] == s.location.host &&
            (forall i :: 0 <= i < |parts[1]| ==> Text.IsDigit(parts[1][i])) && Text.DigitsValue(parts[1]) == s.location.port
  {
    var digits := Text.Decimal(s.location.port);
    assert '/' !in digits;
    assert Text.Join([s.location.host, digits], '/') == Format(s);
    Text.SplitJoin([s.location.host, digits], '/');
    Text.DecimalValue(s.location.port);
  }

  /** The streams that offer a capability of the type, in order. */
  function OfType(ss: seq<Stream>, streamType: string): (r: seq<Stream>)
    ensures |r| <= |ss|
    ensures forall s :: s in r <==> s in ss && streamType in s.capabilities
  {
    if |ss| == 0 then []
    else
      var n := |ss| - 1;
      OfType(ss[..n], streamType) + (if streamType in ss[n].capabilities then [ss[n]] else [])
  }

  function StreamPairs(ss: seq<Stream>): (r: seq<(string, string)>)
    ensures |r| == |ss| && forall i :: 0 <= i < |ss| ==> r[i] == (Format(ss[i]), Key(ss[i]))
  {
    seq(|ss|, i requires 0 <= i < |ss| => (Format(ss[i]), Key(ss[i])))
  }

  /** GetFormattedVenueStreams: {} when the client is not valid; otherwise
      "host/port" -> key for each stream with a capability of the type (a
      GetStreams that raises propagates). */
  function GetFormattedVenueStreams(c: VenueClient, streamType: string): (r: Call<map<string, string>>)
    ensures GetClient(c).None? ==> r == Returns(map[])
    ensures GetClient(c).Some? && c.streams.Raises? ==> r.Raises?
  {
    if GetClient(c).None? then Returns(map[])
    else match c.streams
      case Raises => Raises
      case Returns(ss) => Returns(Dict(StreamPairs(OfType(ss, streamType))))
  }

  /** Only streams of the type are listed, each under its "host/port", and
      every listed value is a key that is never empty. */
  lemma StreamsOfType(c: VenueClient, streamType: string)
    requires GetClient(c).Some? && c.streams.Returns?
    ensures var d := GetFormattedVenueStreams(c, streamType).value;
            var ss := c.streams.value;
            (forall k :: k in d <==> exists s :: s in ss && streamType in s.capabilities && Format(s) == k) &&
            (forall k :: k in d ==> d[k] != "")
  {
    var ss := c.streams.value;
    var f := OfType(ss, streamType);
    var d := Dict(StreamPairs(f));
    forall k | k in d
      ensures d[k] != ""
    {
      var i :| 0 <= i < |f| && StreamPairs(f)[i].0 == k;
      var j := LastWith(StreamPairs(f), i);
      DictLastWins(StreamPairs(f), j);
    }
    forall k | (exists s :: s in ss && streamType in s.capabilities && Format(s) == k)
      ensures k in d
    {
      var s :| s in ss && streamType in s.capabilities && Format(s) == k;
      var i :| 0 <= i < |f| && f[i] == s;
      assert StreamPairs(f)[i].0 == k;
    }
  }

  /** A "host/port" listed by several streams of the type holds the key of
      the last of them. */
  lemma StreamKeyOfLast(c: VenueClient, streamType: string, i: nat)
    requires GetClient(c).Some? && c.streams.Returns?
    requires var f := OfType(c.streams.value, streamType);
             i < |f| && forall j :: i < j < |f| ==> Format(f[j]) != Format(f[i])
    ensures var f := OfType(c.streams.value, streamType);
            GetFormattedVenueStreams(c, streamType).value[Format(f[i])] == Key(f[i])
  {
    DictLastWins(StreamPairs(OfType(c.streams.value, streamType)), i);
  }

  /** The last position at or after i whose pair has the same key. */
  lemma {:induction false} LastWith(pairs: seq<(string, string)>, i: nat) returns (j: nat)
    requires i < |pairs|
    ensures i <= j < |pairs| && pairs[j].0 == pairs[i].0
    ensures forall m :: j < m < |pairs| ==> pairs[m].0 != pairs[j].0
    decreases |pairs| - i
  {
    if exists m :: i < m < |pairs| && pairs[m].0 == pairs[i].0 {
      var m :| i < m < |pairs| && pairs[m].0 == pairs[i].0;
      j := LastWith(pairs, m);
    } else {
      j := i;
    }
  }

  /** GetCurrentVenueName: the name of the venue's first stream; "" when
      the client is not valid or the venue has no streams (a GetStreams
      that raises propagates). */
  function GetCurrentVenueName(c: VenueClient): (r: Call<string>)
    ensures GetClient(c).None? ==> r == Returns("")
    ensures GetClient(c).Some? && c.streams.Returns? ==>
              r == Returns(if |c.streams.value| == 0 then "" else c.streams.value[0].name)
    ensures GetClient(c).Some? && c.streams.Raises? ==> r.Raises?
  {
    if GetClient(c).None? then Returns("")
    else match c.streams
      case Raises => Raises
      case Returns(ss) => Returns(if |ss| == 0 then "" else ss[0].name)
  }
}
