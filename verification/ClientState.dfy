/**
 * internal/state/client.go and internal/state/state.go: what the daemon knows about each client.
 *
 * Frames insert, merge and mark clients; a periodic tick evicts the silent ones, the probe-only ones
 * sooner. The specification keeps, per address, every frame that concerned it since it was inserted, and
 * reads each field off that history.
 */
module ClientState {
  import opened Basics
  import opened Mac
  import opened Frames

  const PROBE_ONLY_TTL: nat := 2 * MINUTE

  datatype Client = Client(
    mac: Address, bssid: Address, ssid: string, channel: nat, rssi: int, firstSeen: Time, lastSeen: Time,
    frameCount: nat, associated: bool, probeSSIDs: seq<string>)

  type Clients = map<string, Client>

  /** One run: frames with the clock that stands in for a missing timestamp, and eviction ticks. */
  datatype Op =
    | Frame(frame: ParsedFrame, clock: Time)
    | Tick(ttlClock: Time, probeClock: Time)

  // ---- What each operation on the client map does ----

  /** An update of a known client keeps its FirstSeen, its counters and whatever the update leaves empty. */
  function Merged(c: Client, u: Client): Client {
    c.(lastSeen := u.lastSeen, rssi := u.rssi, channel := u.channel,
       frameCount := if u.frameCount != 0 then u.frameCount else c.frameCount,
       bssid := if u.bssid.Some? then u.bssid else c.bssid,
       ssid := if u.ssid != "" then u.ssid else c.ssid,
       associated := u.associated || c.associated)
  }

  function WithProbe(c: Client, ssid: string): Client {
    if ssid in c.probeSSIDs then c else c.(probeSSIDs := c.probeSSIDs + [ssid])
  }

  function Associated(c: Client, now: Time, bssid: Address): Client {
    c.(associated := true, lastSeen := now, bssid := if bssid.Some? then bssid else c.bssid)
  }

  function Disassociated(c: Client, now: Time): Client {
    c.(associated := false, lastSeen := now)
  }

  function Counted(c: Client, now: Time, channel: nat, bssid: Address): Client {
    c.(frameCount := c.frameCount + 1, lastSeen := now, channel := channel,
       bssid := if bssid.Some? then bssid else c.bssid)
  }

  predicate Knows(s: Clients, a: Address) { a.Some? && MacString(a.value) in s }

  function Put(s: Clients, a: Address, c: Client): Clients
    requires a.Some?
  {
    s[MacString(a.value) := c]
  }

  function At(s: Clients, a: Address): Client
    requires Knows(s, a)
  {
    s[MacString(a.value)]
  }

  function Updated(s: Clients, u: Client): Clients {
    if u.mac.None? then s else Put(s, u.mac, if Knows(s, u.mac) then Merged(At(s, u.mac), u) else u)
  }

  function ProbeAdded(s: Clients, a: Address, ssid: string): Clients {
    if ssid != "" && Knows(s, a) then Put(s, a, WithProbe(At(s, a), ssid)) else s
  }

  function MarkedAssociated(s: Clients, a: Address, now: Time, bssid: Address): Clients {
    if Knows(s, a) then Put(s, a, Associated(At(s, a), now, bssid)) else s
  }

  function MarkedDisassociated(s: Clients, a: Address, now: Time): Clients {
    if Knows(s, a) then Put(s, a, Disassociated(At(s, a), now)) else s
  }

  function FrameCounted(s: Clients, a: Address, now: Time, channel: nat, bssid: Address): Clients {
    if Knows(s, a) then Put(s, a, Counted(At(s, a), now, channel, bssid)) else s
  }

  predicate ProbeOnly(c: Client) { c.frameCount == 0 && !c.associated }

  /** Last seen before the cutoff, and admitted by the optional predicate. */
  predicate Evictable(c: Client, olderThan: int, admits: Option<Client -> bool>) {
    c.lastSeen < olderThan && (admits.None? || admits.value(c))
  }

  function Evicted(s: Clients, olderThan: int, admits: Option<Client -> bool>): Clients {
    map k | k in s && !Evictable(s[k], olderThan, admits) :: s[k]
  }

  // ---- What each frame does ----

  function Now(f: ParsedFrame, clock: Time): Time { if f.timestamp == 0 then clock else f.timestamp }

  function ProbeUpdate(s: Clients, f: ParsedFrame, now: Time): Client {
    if Knows(s, f.srcMAC) then Client(f.srcMAC, None, "", f.channel, f.rssi, 0, now, 0, false, [])
    else Client(f.srcMAC, None, f.ssid, f.channel, f.rssi, now, now, 0, false, [])
  }

  function ProbeRequested(s: Clients, f: ParsedFrame, now: Time): Clients {
    ProbeAdded(Updated(s, ProbeUpdate(s, f, now)), f.srcMAC, f.ssid)
  }

  function AssocRequested(s: Clients, f: ParsedFrame, now: Time): Clients {
    Updated(s, Client(f.srcMAC, f.bssid, f.ssid, f.channel, f.rssi, now, now, 0, true, []))
  }

  function AssocResponded(s: Clients, f: ParsedFrame, now: Time): Clients {
    if f.status != 0 then s else MarkedAssociated(s, f.dstMAC, now, f.bssid)
  }

  function Dropped(s: Clients, a: Address, now: Time): Clients {
    if a == Some(BROADCAST) then s else MarkedDisassociated(s, a, now)
  }

  /** The client of a data frame and the access point it talks to, by the direction flags. */
  function DataEnds(f: ParsedFrame): (Address, Address) {
    if f.toDS && !f.fromDS then (f.srcMAC, f.dstMAC)
    else if !f.toDS && f.fromDS then (f.dstMAC, f.srcMAC)
    else (None, None)
  }

  function DataSeen(s: Clients, f: ParsedFrame, now: Time): Clients {
    var (client, bssid) := DataEnds(f);
    if client.None? || client == Some(BROADCAST) then s
    else if Knows(s, client) then FrameCounted(s, client, now, f.channel, bssid)
    else Updated(s, Client(client, bssid, "", f.channel, f.rssi, now, now, 1, true, []))
  }

  function Processed(s: Clients, f: ParsedFrame, now: Time): Clients {
    match f.frameType
    case ProbeRequest => ProbeRequested(s, f, now)
    case AssocReq => AssocRequested(s, f, now)
    case ReassocReq => AssocRequested(s, f, now)
    case AssocResp => AssocResponded(s, f, now)
    case ReassocResp => AssocResponded(s, f, now)
    case Deauth => Dropped(Dropped(s, f.dstMAC, now), f.srcMAC, now)
    case Disassoc => Dropped(Dropped(s, f.dstMAC, now), f.srcMAC, now)
    case Data => DataSeen(s, f, now)
    case QoSData => DataSeen(s, f, now)
    case _ => s
  }

  function EvictedProbeOnly(s: Clients, olderThan: int): Clients { Evicted(s, olderThan, Some(ProbeOnly)) }

  function EvictedAny(s: Clients, olderThan: int): Clients { Evicted(s, olderThan, None) }

  function Ticked(s: Clients, cutoff: int, probeOnlyCutoff: int): Clients {
    EvictedAny(EvictedProbeOnly(s, probeOnlyCutoff), cutoff)
  }

  function Step(ttl: nat, s: Clients, op: Op): Clients {
    match op
    case Frame(f, clock) => Processed(s, f, Now(f, clock))
    case Tick(ttlClock, probeClock) => Ticked(s, ttlClock - ttl, probeClock - PROBE_ONLY_TTL)
  }

  function Run(ttl: nat, log: seq<Op>): Clients {
    if log == [] then map[] else Step(ttl, Run(ttl, log[..|log| - 1]), log[|log| - 1])
  }

  lemma RunSnoc(ttl: nat, log: seq<Op>, op: Op)
    ensures Run(ttl, log + [op]) == Step(ttl, Run(ttl, log), op)
  {
    hide Step;
    assert (log + [op])[..|log|] == log;
  }

  // ---- What concerns one address ----

  /** What a frame says about a client, wherever the client stands in it. */
  datatype Sighting =
    | Probe(ssid: string, channel: nat, rssi: int, at: Time)
    | Request(bssid: Address, ssid: string, channel: nat, rssi: int, at: Time)
    | Confirm(bssid: Address, at: Time)
    | Leave(at: Time)
    | Traffic(bssid: Address, channel: nat, rssi: int, at: Time)

  /** A client becomes known by asking or by talking, never by an access point's word alone. */
  predicate Introduces(e: Sighting) { e.Probe? || e.Request? || e.Traffic? }

  function Requests(f: ParsedFrame, now: Time, m: Mac): Option<Sighting> {
    if f.srcMAC == Some(m) then Some(Request(f.bssid, f.ssid, f.channel, f.rssi, now)) else None
  }

  function Confirms(f: ParsedFrame, now: Time, m: Mac): Option<Sighting> {
    if f.status == 0 && f.dstMAC == Some(m) then Some(Confirm(f.bssid, now)) else None
  }

  function Leaves(f: ParsedFrame, now: Time, m: Mac): Option<Sighting> {
    if m != BROADCAST && (f.dstMAC == Some(m) || f.srcMAC == Some(m)) then Some(Leave(now)) else None
  }

  function Talks(f: ParsedFrame, now: Time, m: Mac): Option<Sighting> {
    if m == BROADCAST then None
    else if f.toDS && !f.fromDS && f.srcMAC == Some(m) then Some(Traffic(f.dstMAC, f.channel, f.rssi, now))
    else if !f.toDS && f.fromDS && f.dstMAC == Some(m) then Some(Traffic(f.srcMAC, f.channel, f.rssi, now))
    else None
  }

  function Concerns(f: ParsedFrame, now: Time, m: Mac): Option<Sighting> {
    match f.frameType
    case ProbeRequest => if f.srcMAC == Some(m) then Some(Probe(f.ssid, f.channel, f.rssi, now)) else None
    case AssocReq => Requests(f, now, m)
    case ReassocReq => Requests(f, now, m)
    case AssocResp => Confirms(f, now, m)
    case ReassocResp => Confirms(f, now, m)
    case Deauth => Leaves(f, now, m)
    case Disassoc => Leaves(f, now, m)
    case Data => Talks(f, now, m)
    case QoSData => Talks(f, now, m)
    case _ => None
  }

  // ---- Reading a client off its history ----

  /** The newest entry that has something to say; `first` marks the entry that introduced the client. */
  ghost function Latest<T>(h: seq<Sighting>, says: (Sighting, bool) -> Option<T>): Option<T> {
    if h == [] then None
    else
      var said := says(h[|h| - 1], |h| == 1);
      if said.Some? then said else Latest(h[..|h| - 1], says)
  }

  /** `Latest` is what its name says. */
  lemma {:induction false} LatestIff<T>(h: seq<Sighting>, says: (Sighting, bool) -> Option<T>, v: T)
    ensures Latest(h, says) == Some(v) <==>
      exists i :: 0 <= i < |h| && says(h[i], i == 0) == Some(v)
               && forall j :: i < j < |h| ==> says(h[j], j == 0) == None
    ensures Latest(h, says) == None <==> forall i :: 0 <= i < |h| ==> says(h[i], i == 0) == None
  {
    if h != [] {
      var init := h[..|h| - 1];
      LatestIff(init, says, v);
      assert forall i :: 0 <= i < |init| ==> init[i] == h[i];
      if Latest(init, says) == Some(v) && says(h[|h| - 1], |h| == 1) == None {
        var i :| 0 <= i < |init| && says(init[i], i == 0) == Some(v)
          && forall j :: i < j < |init| ==> says(init[j], j == 0) == None;
        assert says(h[i], i == 0) == Some(v);
      }
    }
  }

  ghost function Or<T>(o: Option<T>, default: T): T {
    match o case None => default case Some(v) => v
  }

  function SaysChannel(e: Sighting, first: bool): Option<nat> {
    match e
    case Probe(_, channel, _, _) => Some(channel)
    case Request(_, _, channel, _, _) => Some(channel)
    case Traffic(_, channel, _, _) => Some(channel)
    case _ => None
  }

  /** Data frames of a known client leave its RSSI alone. */
  function SaysRSSI(e: Sighting, first: bool): Option<int> {
    match e
    case Probe(_, _, rssi, _) => Some(rssi)
    case Request(_, _, _, rssi, _) => Some(rssi)
    case Traffic(_, _, rssi, _) => if first then Some(rssi) else None
    case _ => None
  }

  function SaysBSSID(e: Sighting, first: bool): Option<Mac> {
    match e
    case Request(bssid, _, _, _, _) => bssid
    case Confirm(bssid, _) => bssid
    case Traffic(bssid, _, _, _) => bssid
    case _ => None
  }

  /** A probed SSID becomes the client's SSID only when the probe introduces the client. */
  function SaysSSID(e: Sighting, first: bool): Option<string> {
    match e
    case Probe(ssid, _, _, _) => if first then Some(ssid) else None
    case Request(_, ssid, _, _, _) => if ssid != "" then Some(ssid) else None
    case _ => None
  }

  /** Data implies association only when it introduces the client. */
  function SaysAssociated(e: Sighting, first: bool): Option<bool> {
    match e
    case Probe(_, _, _, _) => None
    case Request(_, _, _, _, _) => Some(true)
    case Confirm(_, _) => Some(true)
    case Leave(_) => Some(false)
    case Traffic(_, _, _, _) => if first then Some(true) else None
  }

  ghost function TrafficCount(h: seq<Sighting>): nat {
    if h == [] then 0 else TrafficCount(h[..|h| - 1]) + (if h[|h| - 1].Traffic? then 1 else 0)
  }

  /** The non-empty SSIDs probed for, in order and with repetitions. */
  ghost function Probed(h: seq<Sighting>): seq<string> {
    if h == [] then []
    else
      var init, e := Probed(h[..|h| - 1]), h[|h| - 1];
      if e.Probe? && e.ssid != "" then init + [e.ssid] else init
  }

  /** The list without its repetitions: each element where it first occurs. */
  ghost function FirstOccurrences(ss: seq<string>): seq<string> {
    if ss == [] then []
    else
      var init, s := FirstOccurrences(ss[..|ss| - 1]), ss[|ss| - 1];
      if s in init then init else init + [s]
  }

  ghost function FirstIndex(ss: seq<string>, s: string): (i: nat)
    requires s in ss
    ensures i < |ss| && ss[i] == s && forall j :: 0 <= j < i ==> ss[j] != s
  {
    if ss[0] == s then 0 else
      var i := FirstIndex(ss[1..], s);
      assert forall j :: 0 < j < i + 1 ==> ss[j] == ss[1..][j - 1];
      i + 1
  }

  lemma FirstIndexSnoc(ss: seq<string>, x: string, s: string)
    ensures s in ss ==> FirstIndex(ss + [x], s) == FirstIndex(ss, s)
    ensures x !in ss ==> FirstIndex(ss + [x], x) == |ss|
  {
    var more := ss + [x];
    assert more[|ss|] == x && forall j :: 0 <= j < |ss| ==> more[j] == ss[j] && ss[j] in ss;
  }

  ghost predicate ByFirstIndex(us: seq<string>, ss: seq<string>) {
    && (forall i :: 0 <= i < |us| ==> us[i] in ss)
    && (forall i, j :: 0 <= i < j < |us| ==> FirstIndex(ss, us[i]) < FirstIndex(ss, us[j]))
  }

  /** No repetitions, nothing lost, nothing added, and in the order of first occurrence. */
  lemma {:induction false} FirstOccurrencesMeaning(ss: seq<string>)
    ensures forall s :: s in FirstOccurrences(ss) <==> s in ss
    ensures ByFirstIndex(FirstOccurrences(ss), ss)
  {
    hide FirstIndex;
    if ss != [] {
      var init, last := ss[..|ss| - 1], ss[|ss| - 1];
      FirstOccurrencesMeaning(init);
      assert ss == init + [last];
      forall s ensures s in init ==> FirstIndex(ss, s) == FirstIndex(init, s) {
        FirstIndexSnoc(init, last, s);
      }
      FirstIndexSnoc(init, last, last);
    }
  }

  /** The client that a history describes: none for an empty history, which is an unknown address. */
  ghost function Summary(m: Mac, h: seq<Sighting>): Option<Client> {
    if h == [] then None
    else Some(Client(
      Some(m),
      Latest(h, SaysBSSID),
      Or(Latest(h, SaysSSID), ""),
      Or(Latest(h, SaysChannel), 0),
      Or(Latest(h, SaysRSSI), 0),
      h[0].at,
      h[|h| - 1].at,
      TrafficCount(h),
      Or(Latest(h, SaysAssociated), false),
      FirstOccurrences(Probed(h))))
  }

  /** Not seen since the cutoff, or only ever probing and not seen since the shorter one. */
  ghost predicate Silent(h: seq<Sighting>, cutoff: int, probeOnlyCutoff: int)
    requires h != []
  {
    || h[|h| - 1].at < cutoff
    || (h[|h| - 1].at < probeOnlyCutoff && TrafficCount(h) == 0 && Latest(h, SaysAssociated) != Some(true))
  }

  ghost function Extended(h: seq<Sighting>, seen: Option<Sighting>): seq<Sighting> {
    match seen
    case None => h
    case Some(e) => if h == [] && !Introduces(e) then [] else h + [e]
  }

  /** Everything that concerned the address since it was last introduced; empty while it is unknown. */
  ghost function History(ttl: nat, log: seq<Op>, m: Mac): seq<Sighting> {
    if log == [] then []
    else
      var h := History(ttl, log[..|log| - 1], m);
      match log[|log| - 1]
      case Frame(f, clock) => Extended(h, Concerns(f, Now(f, clock), m))
      case Tick(ttlClock, probeClock) =>
        if h != [] && Silent(h, ttlClock - ttl, probeClock - PROBE_ONLY_TTL) then [] else h
  }

  function Lookup(s: Clients, m: Mac): Option<Client> {
    if MacString(m) in s then Some(s[MacString(m)]) else None
  }

  /** The effect of one sighting on what is known of one client. */
  ghost function Applied(c: Option<Client>, m: Mac, e: Sighting): Option<Client> {
    match e
    case Probe(ssid, channel, rssi, at) =>
      var u := match c
        case None => Client(Some(m), None, ssid, channel, rssi, at, at, 0, false, [])
        case Some(c) => c.(lastSeen := at, rssi := rssi, channel := channel);
      Some(if ssid == "" then u else WithProbe(u, ssid))
    case Request(bssid, ssid, channel, rssi, at) =>
      var u := Client(Some(m), bssid, ssid, channel, rssi, at, at, 0, true, []);
      Some(match c case None => u case Some(c) => Merged(c, u))
    case Confirm(bssid, at) => if c.None? then None else Some(Associated(c.value, at, bssid))
    case Leave(at) => if c.None? then None else Some(Disassociated(c.value, at))
    case Traffic(bssid, channel, rssi, at) =>
      Some(match c
           case None => Client(Some(m), bssid, "", channel, rssi, at, at, 1, true, [])
           case Some(c) => Counted(c, at, channel, bssid))
  }

  lemma LookupPut(s: Clients, a: Address, c: Client, m: Mac)
    requires a.Some?
    ensures Lookup(Put(s, a, c), m) == if a == Some(m) then Some(c) else Lookup(s, m)
    ensures Knows(s, a) ==> Lookup(s, a.value) == Some(At(s, a))
    ensures !Knows(s, a) ==> Lookup(s, a.value) == None
  {
    hide MacString;
    if MacString(a.value) == MacString(m) {
      MacStringInjective(a.value, m);
    }
  }

  lemma UpdateLookup(s: Clients, u: Client, m: Mac)
    ensures Lookup(Updated(s, u), m) ==
      if u.mac != Some(m) then Lookup(s, m)
      else Some(match Lookup(s, m) case None => u case Some(c) => Merged(c, u))
  {
    hide Put, Lookup, Knows, At, Merged;
    if u.mac.Some? {
      LookupPut(s, u.mac, if Knows(s, u.mac) then Merged(At(s, u.mac), u) else u, m);
    }
  }

  lemma AddProbeLookup(s: Clients, a: Address, ssid: string, m: Mac)
    ensures Lookup(ProbeAdded(s, a, ssid), m) ==
      if a == Some(m) && ssid != "" && Lookup(s, m).Some? then Some(WithProbe(Lookup(s, m).value, ssid))
      else Lookup(s, m)
  {
    hide MacString, WithProbe;
    if Knows(s, a) {
      LookupPut(s, a, WithProbe(At(s, a), ssid), m);
    }
  }

  lemma MarkLookup(s: Clients, a: Address, now: Time, channel: nat, bssid: Address, m: Mac)
    ensures Lookup(MarkedAssociated(s, a, now, bssid), m) ==
      if a == Some(m) && Lookup(s, m).Some? then Some(Associated(Lookup(s, m).value, now, bssid)) else Lookup(s, m)
    ensures Lookup(MarkedDisassociated(s, a, now), m) ==
      if a == Some(m) && Lookup(s, m).Some? then Some(Disassociated(Lookup(s, m).value, now)) else Lookup(s, m)
    ensures Lookup(FrameCounted(s, a, now, channel, bssid), m) ==
      if a == Some(m) && Lookup(s, m).Some? then Some(Counted(Lookup(s, m).value, now, channel, bssid))
      else Lookup(s, m)
  {
    hide MacString, Associated, Disassociated, Counted;
    if Knows(s, a) {
      var c := At(s, a);
      LookupPut(s, a, Associated(c, now, bssid), m);
      LookupPut(s, a, Disassociated(c, now), m);
      LookupPut(s, a, Counted(c, now, channel, bssid), m);
    }
  }

  ghost predicate ActsAs(before: Clients, after: Clients, m: Mac, seen: Option<Sighting>) {
    Lookup(after, m) == match seen case None => Lookup(before, m) case Some(e) => Applied(Lookup(before, m), m, e)
  }

  lemma ProbeActs(s: Clients, f: ParsedFrame, now: Time, m: Mac)
    ensures ActsAs(s, ProbeRequested(s, f, now), m,
                   if f.srcMAC == Some(m) then Some(Probe(f.ssid, f.channel, f.rssi, now)) else None)
  {
    hide MacString, Updated, ProbeAdded, WithProbe;
    var u := ProbeUpdate(s, f, now);
    UpdateLookup(s, u, m);
    AddProbeLookup(Updated(s, u), f.srcMAC, f.ssid, m);
  }

  lemma RequestActs(s: Clients, f: ParsedFrame, now: Time, m: Mac)
    ensures ActsAs(s, AssocRequested(s, f, now), m, Requests(f, now, m))
  {
    hide MacString, Updated, Lookup, Merged;
    UpdateLookup(s, Client(f.srcMAC, f.bssid, f.ssid, f.channel, f.rssi, now, now, 0, true, []), m);
  }

  lemma ResponseActs(s: Clients, f: ParsedFrame, now: Time, m: Mac)
    ensures ActsAs(s, AssocResponded(s, f, now), m, Confirms(f, now, m))
  {
    hide Lookup, MarkedAssociated, Associated;
    MarkLookup(s, f.dstMAC, now, 0, f.bssid, m);
  }

  lemma LeaveActs(s: Clients, f: ParsedFrame, now: Time, m: Mac)
    ensures ActsAs(s, Dropped(Dropped(s, f.dstMAC, now), f.srcMAC, now), m, Leaves(f, now, m))
  {
    hide Lookup, MarkedDisassociated;
    MarkLookup(s, f.dstMAC, now, 0, None, m);
    MarkLookup(Dropped(s, f.dstMAC, now), f.srcMAC, now, 0, None, m);
  }

  lemma TrafficActs(s: Clients, f: ParsedFrame, now: Time, m: Mac)
    ensures ActsAs(s, DataSeen(s, f, now), m, Talks(f, now, m))
  {
    hide MacString, FrameCounted, Updated, Counted;
    var (client, bssid) := DataEnds(f);
    MarkLookup(s, client, now, f.channel, bssid, m);
    UpdateLookup(s, Client(client, bssid, "", f.channel, f.rssi, now, now, 1, true, []), m);
    if client.Some? && MacString(client.value) == MacString(m) {
      MacStringInjective(client.value, m);
    }
  }

  lemma SameActs(s: Clients, m: Mac)
    ensures ActsAs(s, s, m, None)
  {
  }

  /** A frame changes what is known of an address exactly as its sighting says, and nothing when there is none. */
  lemma FrameActs(s: Clients, f: ParsedFrame, now: Time, m: Mac)
    ensures ActsAs(s, Processed(s, f, now), m, Concerns(f, now, m))
  {
    hide ActsAs, ProbeRequested, AssocRequested, AssocResponded, Dropped, DataSeen, Requests, Confirms, Leaves, Talks;
    ProbeActs(s, f, now, m);
    RequestActs(s, f, now, m);
    ResponseActs(s, f, now, m);
    LeaveActs(s, f, now, m);
    TrafficActs(s, f, now, m);
    assert ActsAs(s, s, m, None) by {
      SameActs(s, m);
    }
  }

  /** The client end `m` of a data frame of this type and direction, and the access point at the other end. */
  ghost predicate TalksTo(f: ParsedFrame, m: Mac, peer: Address) {
    && (f.frameType == Data || f.frameType == QoSData) && m != [0xff, 0xff, 0xff, 0xff, 0xff, 0xff]
    && ((f.toDS && !f.fromDS && f.srcMAC == Some(m) && f.dstMAC == peer)
        || (!f.toDS && f.fromDS && f.dstMAC == Some(m) && f.srcMAC == peer))
  }

  ghost predicate Quits(f: ParsedFrame, m: Mac) {
    && (f.frameType == Deauth || f.frameType == Disassoc) && m != [0xff, 0xff, 0xff, 0xff, 0xff, 0xff]
    && (f.dstMAC == Some(m) || f.srcMAC == Some(m))
  }

  ghost predicate Confirmed(f: ParsedFrame, m: Mac) {
    (f.frameType == AssocResp || f.frameType == ReassocResp) && f.status == 0 && f.dstMAC == Some(m)
  }

  ghost predicate Asks(f: ParsedFrame, m: Mac) {
    (f.frameType == AssocReq || f.frameType == ReassocReq) && f.srcMAC == Some(m)
  }

  lemma SightingIs(f: ParsedFrame, now: Time, m: Mac)
    ensures Asks(f, m) <==> Concerns(f, now, m) == Some(Request(f.bssid, f.ssid, f.channel, f.rssi, now))
    ensures Confirmed(f, m) <==> Concerns(f, now, m) == Some(Confirm(f.bssid, now))
    ensures Quits(f, m) <==> Concerns(f, now, m) == Some(Leave(now))
    ensures forall peer :: TalksTo(f, m, peer) <==> Concerns(f, now, m) == Some(Traffic(peer, f.channel, f.rssi, now))
    ensures f.frameType == ProbeRequest && f.srcMAC == Some(m)
       <==> Concerns(f, now, m) == Some(Probe(f.ssid, f.channel, f.rssi, now))
    ensures Concerns(f, now, m).None? <==>
      !Asks(f, m) && !Confirmed(f, m) && !Quits(f, m) && !(exists peer :: TalksTo(f, m, peer))
      && !(f.frameType == ProbeRequest && f.srcMAC == Some(m))
  {
    if f.frameType == Data || f.frameType == QoSData {
      assert Talks(f, now, m).Some? ==> TalksTo(f, m, Talks(f, now, m).value.bssid);
    }
  }

  /**
   * What one frame makes of one client, field by field. A request introduces or updates it as associated, a
   * successful response confirms a known one, leaving clears the association, data counts, a probe only
   * updates, and every other frame, with any other address, changes nothing.
   */
  lemma FrameChanges(ttl: nat, s: Clients, f: ParsedFrame, clock: Time, m: Mac)
    ensures var now := if f.timestamp == 0 then clock else f.timestamp;
      var before, after := Lookup(s, m), Lookup(Step(ttl, s, Frame(f, clock)), m);
      && (Asks(f, m) ==> after == Some(
            if before.None? then Client(Some(m), f.bssid, f.ssid, f.channel, f.rssi, now, now, 0, true, [])
            else before.value.(associated := true, lastSeen := now, channel := f.channel, rssi := f.rssi,
                               bssid := if f.bssid.Some? then f.bssid else before.value.bssid,
                               ssid := if f.ssid != "" then f.ssid else before.value.ssid)))
      && (Confirmed(f, m) && before.Some? ==> after == Some(
            before.value.(associated := true, lastSeen := now,
                          bssid := if f.bssid.Some? then f.bssid else before.value.bssid)))
      && (Quits(f, m) && before.Some? ==> after == Some(before.value.(associated := false, lastSeen := now)))
      && (forall peer :: TalksTo(f, m, peer) ==> after == Some(
            if before.None? then Client(Some(m), peer, "", f.channel, f.rssi, now, now, 1, true, [])
            else before.value.(frameCount := before.value.frameCount + 1, lastSeen := now, channel := f.channel,
                               bssid := if peer.Some? then peer else before.value.bssid)))
      && (f.frameType == ProbeRequest && f.srcMAC == Some(m) ==> after == Some(
            var probed := if before.Some? then before.value.probeSSIDs else [];
            var ssids := if f.ssid == "" || f.ssid in probed then probed else probed + [f.ssid];
            if before.None? then Client(Some(m), None, f.ssid, f.channel, f.rssi, now, now, 0, false, ssids)
            else before.value.(lastSeen := now, channel := f.channel, rssi := f.rssi, probeSSIDs := ssids)))
      && (!Asks(f, m) && !(before.Some? && (Confirmed(f, m) || Quits(f, m)))
          && !(exists peer :: TalksTo(f, m, peer)) && !(f.frameType == ProbeRequest && f.srcMAC == Some(m))
          ==> after == before)
  {
    hide Lookup, Processed, Concerns, Asks, Confirmed, Quits, TalksTo;
    FrameActs(s, f, Now(f, clock), m);
    SightingIs(f, Now(f, clock), m);
  }

  lemma LatestSnoc<T>(h: seq<Sighting>, e: Sighting, says: (Sighting, bool) -> Option<T>)
    ensures Latest(h + [e], says) == if says(e, h == []).Some? then says(e, h == []) else Latest(h, says)
  {
    assert (h + [e])[..|h|] == h;
  }

  lemma ProbedSnoc(h: seq<Sighting>, e: Sighting)
    ensures FirstOccurrences(Probed(h + [e])) ==
      var us := FirstOccurrences(Probed(h));
      if e.Probe? && e.ssid != "" && e.ssid !in us then us + [e.ssid] else us
  {
    assert (h + [e])[..|h|] == h;
    if e.Probe? {
      assert (Probed(h) + [e.ssid])[..|Probed(h)|] == Probed(h);
    }
  }

  lemma TrafficSnoc(h: seq<Sighting>, e: Sighting)
    ensures TrafficCount(h + [e]) == TrafficCount(h) + (if e.Traffic? then 1 else 0)
  {
    assert (h + [e])[..|h|] == h;
  }

  lemma NothingProbed()
    ensures FirstOccurrences(Probed([])) == []
  {
  }

  lemma SummarySnoc(m: Mac, h: seq<Sighting>, e: Sighting)
    ensures Applied(Summary(m, h), m, e) == Summary(m, Extended(h, Some(e)))
  {
    hide FirstOccurrences, Probed;
    LatestSnoc(h, e, SaysBSSID);
    LatestSnoc(h, e, SaysSSID);
    LatestSnoc(h, e, SaysChannel);
    LatestSnoc(h, e, SaysRSSI);
    LatestSnoc(h, e, SaysAssociated);
    ProbedSnoc(h, e);
    TrafficSnoc(h, e);
    if h == [] {
      assert FirstOccurrences(Probed([])) == [] by {
        NothingProbed();
      }
    }
  }

  /** What a tick does to one client. */
  lemma TickActs(s: Clients, cutoff: int, probeOnlyCutoff: int, m: Mac)
    ensures Lookup(Ticked(s, cutoff, probeOnlyCutoff), m) ==
      match Lookup(s, m)
      case None => None
      case Some(c) => if c.lastSeen < cutoff || (c.lastSeen < probeOnlyCutoff && ProbeOnly(c)) then None else Some(c)
  {
    hide MacString;
  }

  lemma NothingKnown(m: Mac)
    ensures Lookup(map[], m) == None
  {
  }

  lemma NothingExtended(h: seq<Sighting>)
    ensures Extended(h, None) == h
  {
  }

  /**
   * Over every run of frames and ticks, what the daemon knows of an address is read field by field off
   * everything that concerned the address since it was last introduced.
   */
  lemma {:induction false} ClientsAreSummaries(ttl: nat, log: seq<Op>, m: Mac)
    ensures Lookup(Run(ttl, log), m) == Summary(m, History(ttl, log, m))
  {
    hide Processed, Ticked, Concerns, Lookup, Applied, Extended;
    if log == [] {
      NothingKnown(m);
    } else {
      var before, op := log[..|log| - 1], log[|log| - 1];
      ClientsAreSummaries(ttl, before, m);
      var s, h := Run(ttl, before), History(ttl, before, m);
      match op
      case Frame(f, clock) =>
        var seen := Concerns(f, Now(f, clock), m);
        FrameActs(s, f, Now(f, clock), m);
        if seen.Some? {
          SummarySnoc(m, h, seen.value);
        } else {
          NothingExtended(h);
        }
      case Tick(ttlClock, probeClock) =>
        TickActs(s, ttlClock - ttl, probeClock - PROBE_ONLY_TTL, m);
    }
  }

  predicate Associates(e: Sighting, first: bool) { e.Request? || e.Confirm? || (e.Traffic? && first) }

  /** Entry `i` associates the client, and it has not left since. */
  ghost predicate StaysFrom(h: seq<Sighting>, i: int) {
    0 <= i < |h| && Associates(h[i], i == 0) && forall j :: i < j < |h| ==> !h[j].Leave?
  }

  lemma StaysSnoc(h: seq<Sighting>, e: Sighting)
    ensures (exists i :: StaysFrom(h + [e], i))
       <==> Associates(e, h == []) || (!e.Leave? && exists i :: StaysFrom(h, i))
  {
    hide Associates;
    var more := h + [e];
    assert more[|h|] == e && forall i :: 0 <= i < |h| ==> more[i] == h[i];
    if Associates(e, h == []) {
      assert StaysFrom(more, |h|);
    }
    if i :| StaysFrom(h, i) && !e.Leave? {
      assert StaysFrom(more, i);
    }
    if i :| StaysFrom(more, i) && i < |h| {
      assert !more[|h|].Leave?;
      assert StaysFrom(h, i);
    }
  }

  lemma NothingAssociates()
    ensures Latest([], SaysAssociated) == None && !exists i :: StaysFrom([], i)
  {
  }

  lemma {:induction false} AssociatesLast(h: seq<Sighting>)
    ensures Latest(h, SaysAssociated) == Some(true) <==> exists i :: StaysFrom(h, i)
  {
    hide StaysFrom, Latest;
    if h != [] {
      var init, e := h[..|h| - 1], h[|h| - 1];
      assert h == init + [e];
      AssociatesLast(init);
      LatestSnoc(init, e, SaysAssociated);
      StaysSnoc(init, e);
    } else {
      NothingAssociates();
    }
  }

  /** A known client counts as associated just when some association was not followed by its leaving. */
  lemma AssociatedIff(ttl: nat, log: seq<Op>, m: Mac)
    ensures var c, h := Lookup(Run(ttl, log), m), History(ttl, log, m);
      (c.Some? && c.value.associated) <==> exists i :: StaysFrom(h, i)
  {
    hide Lookup, Run, History, SaysAssociated, StaysFrom;
    ClientsAreSummaries(ttl, log, m);
    AssociatesLast(History(ttl, log, m));
    NothingAssociates();
  }

  /** While a client stays known its FirstSeen is fixed, its counter never drops and its probed SSIDs only grow. */
  lemma StepKeeps(ttl: nat, s: Clients, op: Op, m: Mac)
    requires Lookup(s, m).Some? && Lookup(Step(ttl, s, op), m).Some?
    ensures var c, d := Lookup(s, m).value, Lookup(Step(ttl, s, op), m).value;
      d.firstSeen == c.firstSeen && d.mac == c.mac && c.frameCount <= d.frameCount && c.probeSSIDs <= d.probeSSIDs
  {
    hide Lookup, Processed, Ticked, Concerns;
    match op
    case Frame(f, clock) => FrameActs(s, f, Now(f, clock), m);
    case Tick(ttlClock, probeClock) => TickActs(s, ttlClock - ttl, probeClock - PROBE_ONLY_TTL, m);
  }

  /** The two passes of a tick are one filter, whatever the two cutoffs, and could run in either order. */
  lemma TickIsOneFilter(s: Clients, cutoff: int, probeOnlyCutoff: int)
    ensures Ticked(s, cutoff, probeOnlyCutoff) == map k |
      k in s && s[k].lastSeen >= cutoff && (s[k].lastSeen >= probeOnlyCutoff || !ProbeOnly(s[k])) :: s[k]
    ensures Ticked(s, cutoff, probeOnlyCutoff) == EvictedProbeOnly(EvictedAny(s, cutoff), probeOnlyCutoff)
  {
  }

  /**
   * What a tick leaves of one client: it stays, unchanged, unless it was last seen before the time to live, or
   * it never sent data, is not associated, and was last seen more than two minutes before the second reading.
   */
  lemma TickKeeps(ttl: nat, s: Clients, ttlClock: Time, probeClock: Time, m: Mac)
    ensures Lookup(Step(ttl, s, Tick(ttlClock, probeClock)), m) ==
      match Lookup(s, m)
      case None => None
      case Some(c) =>
        if c.lastSeen < ttlClock - ttl
           || (c.frameCount == 0 && !c.associated && c.lastSeen < probeClock - 120_000_000_000) then None
        else Some(c)
  {
    hide Lookup, Ticked;
    TickActs(s, ttlClock - ttl, probeClock - PROBE_ONLY_TTL, m);
  }

  // ---- The map and the engine as the objects that change in place ----

  class ClientInfo {
    const mac: Address
    var bssid: Address
    var ssid: string
    var channel: nat
    var rssi: int
    var firstSeen: Time
    var lastSeen: Time
    var frameCount: nat
    var associated: bool
    var probeSSIDs: seq<string>

    function View(): Client
      reads this
    {
      Client(mac, bssid, ssid, channel, rssi, firstSeen, lastSeen, frameCount, associated, probeSSIDs)
    }

    constructor (c: Client)
      ensures View() == c
    {
      mac, bssid, ssid, channel, rssi := c.mac, c.bssid, c.ssid, c.channel, c.rssi;
      firstSeen, lastSeen, frameCount := c.firstSeen, c.lastSeen, c.frameCount;
      associated, probeSSIDs := c.associated, c.probeSSIDs;
    }

    method Merge(u: ClientInfo)
      requires u != this
      modifies this
      ensures View() == Merged(old(View()), u.View())
    {
      lastSeen, rssi, channel := u.lastSeen, u.rssi, u.channel;
      if u.frameCount != 0 {
        frameCount := u.frameCount;
      }
      if u.bssid.Some? {
        bssid := u.bssid;
      }
      if u.ssid != "" {
        ssid := u.ssid;
      }
      if u.associated {
        associated := true;
      }
    }

    method AddProbe(probed: string)
      modifies this
      ensures View() == WithProbe(old(View()), probed)
    {
      if probed !in probeSSIDs {
        probeSSIDs := probeSSIDs + [probed];
      }
    }

    method Associate(now: Time, ap: Address)
      modifies this
      ensures View() == Associated(old(View()), now, ap)
    {
      associated, lastSeen := true, now;
      if ap.Some? {
        bssid := ap;
      }
    }

    method Disassociate(now: Time)
      modifies this
      ensures View() == Disassociated(old(View()), now)
    {
      associated, lastSeen := false, now;
    }

    method Count(now: Time, on: nat, ap: Address)
      modifies this
      ensures View() == Counted(old(View()), now, on, ap)
    {
      frameCount, lastSeen, channel := frameCount + 1, now, on;
      if ap.Some? {
        bssid := ap;
      }
    }
  }

  lemma Viewed(c: ClientInfo)
    ensures c.View().mac == c.mac && c.View().lastSeen == c.lastSeen
  {
  }

  /** The map in the middle of an eviction pass: the keys still to visit are all there. */
  ghost function PartlyEvicted(s: Clients, todo: set<string>, olderThan: int, admits: Option<Client -> bool>): Clients {
    map k | k in s && (k in todo || !Evictable(s[k], olderThan, admits)) :: s[k]
  }

  lemma PartlyEvictedNext(s: Clients, todo: set<string>, key: string, olderThan: int, admits: Option<Client -> bool>)
    requires key in todo && todo <= s.Keys
    ensures var now := PartlyEvicted(s, todo, olderThan, admits);
      && key in now && now[key] == s[key]
      && PartlyEvicted(s, todo - {key}, olderThan, admits)
         == if Evictable(s[key], olderThan, admits) then now - {key} else now
  {
    hide Evictable;
  }

  lemma AllToDo(s: Clients, olderThan: int, admits: Option<Client -> bool>)
    ensures PartlyEvicted(s, s.Keys, olderThan, admits) == s
  {
    hide Evictable;
  }

  lemma NoneToDo(s: Clients, olderThan: int, admits: Option<Client -> bool>)
    ensures PartlyEvicted(s, {}, olderThan, admits) == Evicted(s, olderThan, admits)
  {
    hide Evictable;
  }

  class ClientMap {
    var clients: map<string, ClientInfo>
    ghost var repr: set<ClientInfo>

    /** Every entry is its own object, within the footprint. */
    ghost predicate Separate()
      reads this
    {
      && (forall k :: k in clients ==> clients[k] in repr)
      && (forall k, l :: k in clients && l in clients && k != l ==> clients[k] != clients[l])
    }

    ghost function View(): Clients
      requires Separate()
      reads this, repr
    {
      map k | k in clients :: clients[k].View()
    }

    constructor ()
      ensures Separate() && View() == map[] && repr == {}
    {
      clients, repr := map[], {};
    }

    lemma Entries()
      requires Separate()
      ensures View().Keys == clients.Keys && |View()| == |clients|
      ensures forall k :: k in clients ==> View()[k] == clients[k].View()
    {
      assert View().Keys == clients.Keys;
    }

    lemma EntryIs(k: string)
      requires Separate() && k in clients
      ensures clients[k] in repr && forall l :: l in clients && l != k ==> clients[l] != clients[k]
    {
    }

    lemma ViewIs(s: Clients)
      requires Separate() && s.Keys == clients.Keys && forall k :: k in clients ==> clients[k].View() == s[k]
      ensures View() == s
    {
    }

    method Insert(key: string, client: ClientInfo)
      requires Separate() && client !in repr && key !in clients
      modifies this
      ensures Separate() && repr == old(repr) + {client}
      ensures View() == old(View())[key := client.View()]
    {
      hide ClientInfo.View;
      ghost var s := View();
      clients := clients[key := client];
      repr := repr + {client};
      ViewIs(s[key := client.View()]);
    }

    /** Inserts or merges; a new entry is the given object itself, which the map owns from then on. */
    method Update(client: ClientInfo)
      requires Separate() && client !in repr
      modifies this, repr
      ensures Separate() && repr <= old(repr) + {client}
      ensures View() == Updated(old(View()), old(client.View()))
    {
      hide Separate, View, Merged, ClientInfo.View;
      Viewed(client);
      if client.mac.None? {
        return;
      }
      var key := MacString(client.mac.value);
      Entries();
      if key !in clients {
        Insert(key, client);
      } else {
        ghost var s := View();
        EntryIs(key);
        clients[key].Merge(client);
        ViewIs(s[key := Merged(s[key], old(client.View()))]);
      }
    }

    method Get(mac: Mac) returns (client: ClientInfo?)
      ensures client == if MacString(mac) in clients then clients[MacString(mac)] else null
    {
      client := if MacString(mac) in clients then clients[MacString(mac)] else null;
    }

    method AddProbeSSID(mac: Address, ssid: string)
      requires Separate()
      modifies repr
      ensures Separate() && View() == ProbeAdded(old(View()), mac, ssid)
    {
      hide Separate, View, WithProbe, ClientInfo.View;
      Entries();
      if mac.None? || ssid == "" || MacString(mac.value) !in clients {
        return;
      }
      ghost var s := View();
      var key := MacString(mac.value);
      EntryIs(key);
      clients[key].AddProbe(ssid);
      ViewIs(s[key := WithProbe(s[key], ssid)]);
    }

    method MarkAssociated(mac: Address, now: Time, bssid: Address) returns (existed: bool)
      requires Separate()
      modifies repr
      ensures Separate() && View() == MarkedAssociated(old(View()), mac, now, bssid)
      ensures existed == Knows(old(View()), mac)
    {
      hide Separate, View, Associated, ClientInfo.View;
      Entries();
      if mac.None? || MacString(mac.value) !in clients {
        return false;
      }
      ghost var s := View();
      var key := MacString(mac.value);
      EntryIs(key);
      clients[key].Associate(now, bssid);
      ViewIs(s[key := Associated(s[key], now, bssid)]);
      return true;
    }

    method MarkDisassociated(mac: Address, now: Time) returns (existed: bool)
      requires Separate()
      modifies repr
      ensures Separate() && View() == MarkedDisassociated(old(View()), mac, now)
      ensures existed == Knows(old(View()), mac)
    {
      hide Separate, View, Disassociated, ClientInfo.View;
      Entries();
      if mac.None? || MacString(mac.value) !in clients {
        return false;
      }
      ghost var s := View();
      var key := MacString(mac.value);
      EntryIs(key);
      clients[key].Disassociate(now);
      ViewIs(s[key := Disassociated(s[key], now)]);
      return true;
    }

    method IncrementFrame(mac: Address, now: Time, channel: nat, bssid: Address) returns (existed: bool)
      requires Separate()
      modifies repr
      ensures Separate() && View() == FrameCounted(old(View()), mac, now, channel, bssid)
      ensures existed == Knows(old(View()), mac)
    {
      hide Separate, View, Counted, ClientInfo.View;
      Entries();
      if mac.None? || MacString(mac.value) !in clients {
        return false;
      }
      ghost var s := View();
      var key := MacString(mac.value);
      EntryIs(key);
      clients[key].Count(now, channel, bssid);
      ViewIs(s[key := Counted(s[key], now, channel, bssid)]);
      return true;
    }

    method Delete(key: string)
      requires Separate() && key in clients
      modifies this`clients
      ensures Separate() && View() == old(View()) - {key} && |View()| == |old(View())| - 1
    {
      hide ClientInfo.View;
      ghost var s := View();
      Entries();
      clients := clients - {key};
      ViewIs(s - {key});
      assert (s - {key}).Keys == s.Keys - {key};
    }

    /** Deletes the entries last seen before the cutoff that the optional predicate admits, and counts them. */
    method EvictWhere(olderThan: int, admits: Option<Client -> bool>) returns (evicted: nat)
      requires Separate()
      modifies this`clients
      ensures Separate() && View() == Evicted(old(View()), olderThan, admits)
      ensures evicted == |old(View())| - |View()|
    {
      hide Separate, View, PartlyEvicted, Evicted, ClientInfo.View;
      evicted := 0;
      ghost var s := View();
      var todo := clients.Keys;
      Entries();
      AllToDo(s, olderThan, admits);
      while todo != {}
        invariant Separate() && todo <= s.Keys
        invariant View() == PartlyEvicted(s, todo, olderThan, admits) && evicted + |View()| == |s|
        decreases |todo|
      {
        var key :| key in todo;
        PartlyEvictedNext(s, todo, key, olderThan, admits);
        Entries();
        var c := clients[key];
        Viewed(c);
        if c.lastSeen < olderThan && (admits.None? || admits.value(c.View())) {
          Delete(key);
          evicted := evicted + 1;
        }
        todo := todo - {key};
      }
      NoneToDo(s, olderThan, admits);
    }

    /** `Evict`. */
    method EvictStale(olderThan: int) returns (evicted: nat)
      requires Separate()
      modifies this`clients
      ensures Separate() && View() == EvictedAny(old(View()), olderThan)
      ensures evicted == |old(View())| - |View()|
    {
      hide Separate, View, Evicted;
      evicted := EvictWhere(olderThan, None);
    }

    method EvictProbeOnly(olderThan: int) returns (evicted: nat)
      requires Separate()
      modifies this`clients
      ensures Separate() && View() == EvictedProbeOnly(old(View()), olderThan)
      ensures evicted == |old(View())| - |View()|
    {
      hide Separate, View, Evicted;
      evicted := EvictWhere(olderThan, Some(ProbeOnly));
    }
  }

  lemma NoAddress(s: Clients, f: ParsedFrame, now: Time)
    requires f.srcMAC.None?
    ensures ProbeRequested(s, f, now) == s
  {
  }

  lemma NoProbe(s: Clients, a: Address)
    ensures ProbeAdded(s, a, "") == s
  {
  }

  class Engine {
    const ttl: nat
    const clients: ClientMap

    /** The client map is in the state that the frames and ticks of `log` lead to. */
    ghost predicate Follows(log: seq<Op>)
      reads clients, clients.repr
    {
      clients.Separate() && clients.View() == Run(ttl, log)
    }

    constructor (ttl: nat)
      ensures Follows([]) && this.ttl == ttl && fresh(clients) && fresh(clients.repr)
    {
      this.ttl := ttl;
      clients := new ClientMap();
    }

    /** Inserts the probing client, or merges what the probe says of a known one. */
    method UpsertProbing(frame: ParsedFrame, now: Time)
      requires clients.Separate() && frame.srcMAC.Some?
      modifies clients, clients.repr
      ensures clients.Separate() && fresh(clients.repr - old(clients.repr))
      ensures clients.View() == Updated(old(clients.View()), ProbeUpdate(old(clients.View()), frame, now))
    {
      hide ClientMap.View, ClientMap.Separate, ClientInfo.View, Updated, MacString;
      clients.Entries();
      var known := clients.Get(frame.srcMAC.value);
      var client := new ClientInfo(
        if known != null then Client(frame.srcMAC, None, "", frame.channel, frame.rssi, 0, now, 0, false, [])
        else Client(frame.srcMAC, None, frame.ssid, frame.channel, frame.rssi, now, now, 0, false, []));
      clients.Update(client);
    }

    method ProcessProbeRequest(frame: ParsedFrame, clock: Time)
      requires clients.Separate()
      modifies clients, clients.repr
      ensures clients.Separate() && fresh(clients.repr - old(clients.repr))
      ensures clients.View() == ProbeRequested(old(clients.View()), frame, Now(frame, clock))
    {
      hide ClientMap.View, ClientMap.Separate, ProbeUpdate, Updated, ProbeAdded;
      if frame.srcMAC.None? {
        NoAddress(clients.View(), frame, Now(frame, clock));
        return;
      }
      var now := if frame.timestamp == 0 then clock else frame.timestamp;
      UpsertProbing(frame, now);
      if frame.ssid != "" {
        clients.AddProbeSSID(frame.srcMAC, frame.ssid);
      } else {
        NoProbe(clients.View(), frame.srcMAC);
      }
    }

    method ProcessAssocRequest(frame: ParsedFrame, clock: Time)
      requires clients.Separate()
      modifies clients, clients.repr
      ensures clients.Separate() && fresh(clients.repr - old(clients.repr))
      ensures clients.View() == AssocRequested(old(clients.View()), frame, Now(frame, clock))
    {
      hide ClientMap.View, ClientMap.Separate, ClientInfo.View;
      if frame.srcMAC.None? {
        return;
      }
      var now := if frame.timestamp == 0 then clock else frame.timestamp;
      var client := new ClientInfo(
        Client(frame.srcMAC, frame.bssid, frame.ssid, frame.channel, frame.rssi, now, now, 0, true, []));
      clients.Update(client);
    }

    method ProcessAssocResponse(frame: ParsedFrame, clock: Time)
      requires clients.Separate()
      modifies clients.repr
      ensures clients.Separate()
      ensures clients.View() == AssocResponded(old(clients.View()), frame, Now(frame, clock))
    {
      hide ClientMap.View, ClientMap.Separate;
      if frame.status != 0 || frame.dstMAC.None? {
        return;
      }
      var now := if frame.timestamp == 0 then clock else frame.timestamp;
      var _ := clients.MarkAssociated(frame.dstMAC, now, frame.bssid);
    }

    method ProcessDeauthDisassoc(frame: ParsedFrame, clock: Time)
      requires clients.Separate()
      modifies clients.repr
      ensures clients.Separate()
      ensures var now := Now(frame, clock);
        clients.View() == Dropped(Dropped(old(clients.View()), frame.dstMAC, now), frame.srcMAC, now)
    {
      hide ClientMap.View, ClientMap.Separate, Disassociated;
      var now := if frame.timestamp == 0 then clock else frame.timestamp;
      if frame.dstMAC.Some? && frame.dstMAC.value != BROADCAST {
        var _ := clients.MarkDisassociated(frame.dstMAC, now);
      }
      if frame.srcMAC.Some? && frame.srcMAC.value != BROADCAST {
        var _ := clients.MarkDisassociated(frame.srcMAC, now);
      }
    }

    method ProcessDataFrame(frame: ParsedFrame, clock: Time)
      requires clients.Separate()
      modifies clients, clients.repr
      ensures clients.Separate() && fresh(clients.repr - old(clients.repr))
      ensures clients.View() == DataSeen(old(clients.View()), frame, Now(frame, clock))
    {
      hide ClientMap.View, ClientMap.Separate, ClientInfo.View, Updated, Counted;
      var clientMAC, bssid: Address;
      if frame.toDS && !frame.fromDS {
        clientMAC, bssid := frame.srcMAC, frame.dstMAC;
      } else if !frame.toDS && frame.fromDS {
        clientMAC, bssid := frame.dstMAC, frame.srcMAC;
      } else {
        return;
      }
      if clientMAC.None? || clientMAC.value == BROADCAST {
        return;
      }
      var now := if frame.timestamp == 0 then clock else frame.timestamp;
      var existed := clients.IncrementFrame(clientMAC, now, frame.channel, bssid);
      if !existed {
        var client := new ClientInfo(Client(clientMAC, bssid, "", frame.channel, frame.rssi, now, now, 1, true, []));
        clients.Update(client);
      }
    }

    /** Any frame after any run of frames and ticks. */
    method ProcessFrame(frame: ParsedFrame, clock: Time, ghost log: seq<Op>)
      requires Follows(log)
      modifies clients, clients.repr
      ensures Follows(log + [Frame(frame, clock)]) && fresh(clients.repr - old(clients.repr))
    {
      hide Run, ProbeRequested, AssocRequested, AssocResponded, Dropped, DataSeen, ClientMap.View, ClientMap.Separate;
      RunSnoc(ttl, log, Frame(frame, clock));
      match frame.frameType {
        case ProbeRequest => ProcessProbeRequest(frame, clock);
        case AssocReq => ProcessAssocRequest(frame, clock);
        case ReassocReq => ProcessAssocRequest(frame, clock);
        case AssocResp => ProcessAssocResponse(frame, clock);
        case ReassocResp => ProcessAssocResponse(frame, clock);
        case Deauth => ProcessDeauthDisassoc(frame, clock);
        case Disassoc => ProcessDeauthDisassoc(frame, clock);
        case Data => ProcessDataFrame(frame, clock);
        case QoSData => ProcessDataFrame(frame, clock);
        case _ =>
      }
    }

    /** One tick of `RunEviction`, with the two readings of the clock; returns the number of clients evicted. */
    method Evict(ttlClock: Time, probeClock: Time, ghost log: seq<Op>) returns (evicted: nat)
      requires Follows(log)
      modifies clients
      ensures Follows(log + [Tick(ttlClock, probeClock)])
      ensures evicted == |old(clients.View())| - |clients.View()|
    {
      hide Run, EvictedAny, EvictedProbeOnly, ClientMap.View, ClientMap.Separate;
      RunSnoc(ttl, log, Tick(ttlClock, probeClock));
      var probeOnlyEvicted := clients.EvictProbeOnly(probeClock as int - PROBE_ONLY_TTL);
      var clientEvicted := clients.EvictStale(ttlClock as int - ttl);
      evicted := probeOnlyEvicted + clientEvicted;
    }
  }
}
