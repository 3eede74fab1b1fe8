/**
 * internal/detector/rule_evil_twin.go: comparing access points that announce the same SSID.
 *
 * The rule keeps one record per SSID and BSSID, compares each announcing access point with the first
 * one observed, and suppresses repeated alerts for the same pair. Records compare their BSSIDs as
 * strings; here they hold the address, whose text is injective.
 */
module EvilTwin {
  import opened Basics
  import opened Mac
  import opened Frames

  const CLEANUP_INTERVAL: nat := 10000

  datatype Config = Config(scoreThreshold: pos, staleTimeout: pos, learningPeriod: nat, minBeacons: pos)

  type InfoElements = Option<map<byte, seq<byte>>>

  datatype Record = Record(
    addr: Mac, channel: nat, infoElements: InfoElements, capability: nat, beaconInterval: nat,
    firstSeen: Time, lastSeen: Time, rssi: int, beaconCount: nat)

  datatype State = State(startedAt: Time, aps: map<string, seq<Record>>, alerted: map<string, Time>, callCount: nat)

  datatype Mismatch =
    | BSSID | Channel | RSN | Vendor | Capability | HTCapabilities | VHTCapabilities | ExtendedCapabilities

  datatype TwinEvent = TwinEvent(
    timestamp: Time, severity: Severity, ssid: string, candidate: Mac, legitimate: Mac,
    channel: nat, rssi: int, frameCount: nat, duration: int, score: int,
    mismatches: seq<Mismatch>, legitimateChannel: nat)

  // ---- Scores ----

  function Lookup(ies: InfoElements, id: byte): Option<seq<byte>> {
    if ies.Some? && id in ies.value then Some(ies.value[id]) else None
  }

  predicate SameIE(a: InfoElements, b: InfoElements, id: byte) { Lookup(a, id) == Lookup(b, id) }

  predicate ChannelsDiffer(a: Record, b: Record) { a.channel != 0 && b.channel != 0 && a.channel != b.channel }

  function WeightOf(mismatch: Mismatch): nat {
    match mismatch
    case BSSID => 50
    case Channel => 30
    case RSN => 40
    case Vendor => 20
    case Capability => 20
    case HTCapabilities => 10
    case VHTCapabilities => 10
    case ExtendedCapabilities => 5
  }

  function Noting(mismatches: seq<Mismatch>, differs: bool, name: Mismatch): seq<Mismatch> {
    if differs then mismatches + [name] else mismatches
  }

  /** What two access points of the same SSID differ in, the BSSID first of all. */
  function Mismatches(a: Record, b: Record): seq<Mismatch> {
    var m1 := Noting([BSSID], ChannelsDiffer(a, b), Channel);
    var m2 := Noting(m1, !SameIE(a.infoElements, b.infoElements, 48), RSN);
    var m3 := Noting(m2, !SameIE(a.infoElements, b.infoElements, 221), Vendor);
    var m4 := Noting(m3, a.capability != b.capability, Capability);
    var m5 := Noting(m4, !SameIE(a.infoElements, b.infoElements, 45), HTCapabilities);
    var m6 := Noting(m5, !SameIE(a.infoElements, b.infoElements, 191), VHTCapabilities);
    Noting(m6, !SameIE(a.infoElements, b.infoElements, 127), ExtendedCapabilities)
  }

  function Total(mismatches: seq<Mismatch>): nat {
    if mismatches == [] then 0
    else Total(mismatches[..|mismatches| - 1]) + WeightOf(mismatches[|mismatches| - 1])
  }

  /** The score is the weight of everything that differs. */
  function Score(known: Record, candidate: Record): nat { Total(Mismatches(known, candidate)) }

  lemma TotalSnoc(mismatches: seq<Mismatch>, name: Mismatch)
    ensures Total(mismatches + [name]) == Total(mismatches) + WeightOf(name)
  {
    hide WeightOf;
    assert (mismatches + [name])[..|mismatches|] == mismatches;
  }

  lemma TotalNoting(mismatches: seq<Mismatch>, differs: bool, name: Mismatch)
    ensures Total(Noting(mismatches, differs, name)) == Total(mismatches) + if differs then WeightOf(name) else 0
  {
    TotalSnoc(mismatches, name);
  }

  /** The comparison does not depend on which of the two access points was known first. */
  lemma ComparisonSymmetric(a: Record, b: Record)
    ensures Mismatches(a, b) == Mismatches(b, a) && Score(a, b) == Score(b, a)
  {
    hide Lookup, Noting, Total;
  }

  lemma NothingTotals()
    ensures Total([]) == 0
  {
  }

  lemma NotingOne()
    ensures Noting([], true, BSSID) == [BSSID]
  {
  }

  lemma NotingIs(ms: seq<Mismatch>, differs: bool, name: Mismatch)
    ensures Noting(ms, differs, name) == ms + if differs then [name] else []
  {
  }

  lemma SameIEIff(a: InfoElements, b: InfoElements, id: byte)
    ensures var x, y := if a.Some? then a.value else map[], if b.Some? then b.value else map[];
      !SameIE(a, b, id) <==> (id in x && id !in y) || (id !in x && id in y) || (id in x && id in y && x[id] != y[id])
  {
  }

  /** The list for given answers of the five comparisons of elements. */
  lemma MismatchesListed(a: Record, b: Record, rsn: bool, vendor: bool, ht: bool, vht: bool, ext: bool)
    requires rsn == !SameIE(a.infoElements, b.infoElements, 48)
    requires vendor == !SameIE(a.infoElements, b.infoElements, 221)
    requires ht == !SameIE(a.infoElements, b.infoElements, 45) && vht == !SameIE(a.infoElements, b.infoElements, 191)
    requires ext == !SameIE(a.infoElements, b.infoElements, 127)
    ensures Mismatches(a, b) == [BSSID]
      + (if ChannelsDiffer(a, b) then [Channel] else []) + (if rsn then [RSN] else [])
      + (if vendor then [Vendor] else []) + (if a.capability != b.capability then [Capability] else [])
      + (if ht then [HTCapabilities] else []) + (if vht then [VHTCapabilities] else [])
      + (if ext then [ExtendedCapabilities] else [])
  {
    hide SameIE, ChannelsDiffer, Noting, Total;
    var m1 := Noting([BSSID], ChannelsDiffer(a, b), Channel);
    var m2 := Noting(m1, rsn, RSN);
    var m3 := Noting(m2, vendor, Vendor);
    var m4 := Noting(m3, a.capability != b.capability, Capability);
    var m5 := Noting(m4, ht, HTCapabilities);
    var m6 := Noting(m5, vht, VHTCapabilities);
    NotingIs([BSSID], ChannelsDiffer(a, b), Channel);
    NotingIs(m1, rsn, RSN);
    NotingIs(m2, vendor, Vendor);
    NotingIs(m3, a.capability != b.capability, Capability);
    NotingIs(m4, ht, HTCapabilities);
    NotingIs(m5, vht, VHTCapabilities);
    NotingIs(m6, ext, ExtendedCapabilities);
  }

  /** And the score. */
  lemma MismatchesWeighed(a: Record, b: Record, rsn: bool, vendor: bool, ht: bool, vht: bool, ext: bool)
    requires rsn == !SameIE(a.infoElements, b.infoElements, 48)
    requires vendor == !SameIE(a.infoElements, b.infoElements, 221)
    requires ht == !SameIE(a.infoElements, b.infoElements, 45) && vht == !SameIE(a.infoElements, b.infoElements, 191)
    requires ext == !SameIE(a.infoElements, b.infoElements, 127)
    ensures Score(a, b) == 50
      + (if ChannelsDiffer(a, b) then 30 else 0) + (if rsn then 40 else 0) + (if vendor then 20 else 0)
      + (if a.capability != b.capability then 20 else 0) + (if ht then 10 else 0)
      + (if vht then 10 else 0) + (if ext then 5 else 0)
  {
    hide SameIE, ChannelsDiffer, Noting, Total;
    var m1 := Noting([BSSID], ChannelsDiffer(a, b), Channel);
    var m2 := Noting(m1, rsn, RSN);
    var m3 := Noting(m2, vendor, Vendor);
    var m4 := Noting(m3, a.capability != b.capability, Capability);
    var m5 := Noting(m4, ht, HTCapabilities);
    var m6 := Noting(m5, vht, VHTCapabilities);
    TotalNoting([], true, BSSID);
    TotalNoting([BSSID], ChannelsDiffer(a, b), Channel);
    TotalNoting(m1, rsn, RSN);
    TotalNoting(m2, vendor, Vendor);
    TotalNoting(m3, a.capability != b.capability, Capability);
    TotalNoting(m4, ht, HTCapabilities);
    TotalNoting(m5, vht, VHTCapabilities);
    TotalNoting(m6, ext, ExtendedCapabilities);
    NotingOne();
    NothingTotals();
  }

  /**
   * What the comparison of two records lists and weighs: known channels that are not the same, elements that
   * only one of the two carries or that hold different bytes, and the capability.
   */
  ghost predicate Compares(a: Record, b: Record, score: nat, mismatches: seq<Mismatch>) {
    var x := if a.infoElements.Some? then a.infoElements.value else map[];
    var y := if b.infoElements.Some? then b.infoElements.value else map[];
    var channel := a.channel != 0 && b.channel != 0 && a.channel != b.channel;
    var capability := a.capability != b.capability;
    var rsn := (48 in x && 48 !in y) || (48 !in x && 48 in y) || (48 in x && 48 in y && x[48] != y[48]);
    var vendor := (221 in x && 221 !in y) || (221 !in x && 221 in y) || (221 in x && 221 in y && x[221] != y[221]);
    var ht := (45 in x && 45 !in y) || (45 !in x && 45 in y) || (45 in x && 45 in y && x[45] != y[45]);
    var vht := (191 in x && 191 !in y) || (191 !in x && 191 in y) || (191 in x && 191 in y && x[191] != y[191]);
    var ext := (127 in x && 127 !in y) || (127 !in x && 127 in y) || (127 in x && 127 in y && x[127] != y[127]);
    && mismatches == [BSSID]
         + (if channel then [Channel] else []) + (if rsn then [RSN] else []) + (if vendor then [Vendor] else [])
         + (if capability then [Capability] else []) + (if ht then [HTCapabilities] else [])
         + (if vht then [VHTCapabilities] else []) + (if ext then [ExtendedCapabilities] else [])
    && score == 50
         + (if channel then 30 else 0) + (if rsn then 40 else 0) + (if vendor then 20 else 0)
         + (if capability then 20 else 0) + (if ht then 10 else 0) + (if vht then 10 else 0) + (if ext then 5 else 0)
  }

  lemma ScoreIs(a: Record, b: Record)
    ensures Compares(a, b, Score(a, b), Mismatches(a, b))
  {
    hide SameIE, Mismatches, Score;
    var p, q := a.infoElements, b.infoElements;
    SameIEIff(p, q, 48);
    SameIEIff(p, q, 221);
    SameIEIff(p, q, 45);
    SameIEIff(p, q, 191);
    SameIEIff(p, q, 127);
    var rsn, vendor, ht := !SameIE(p, q, 48), !SameIE(p, q, 221), !SameIE(p, q, 45);
    var vht, ext := !SameIE(p, q, 191), !SameIE(p, q, 127);
    MismatchesListed(a, b, rsn, vendor, ht, vht, ext);
    MismatchesWeighed(a, b, rsn, vendor, ht, vht, ext);
  }

  /** A score lies between 50, the BSSID alone, and 185, everything. */
  lemma ScoreBounds(a: Record, b: Record)
    ensures 50 <= Score(a, b) <= 185
    ensures Score(a, b) == 50 <==> Mismatches(a, b) == [BSSID]
  {
    hide Mismatches, Score;
    ScoreIs(a, b);
  }

  // ---- Alert keys ----

  /** Go's `a > b` on strings. */
  predicate Greater(a: string, b: string) {
    if a == [] then false
    else if b == [] then true
    else a[0] > b[0] || (a[0] == b[0] && Greater(a[1..], b[1..]))
  }

  lemma {:induction false} GreaterTotal(a: string, b: string)
    ensures !(Greater(a, b) && Greater(b, a))
    ensures Greater(a, b) || Greater(b, a) || a == b
  {
    if a != [] && b != [] {
      GreaterTotal(a[1..], b[1..]);
      assert a == [a[0]] + a[1..] && b == [b[0]] + b[1..];
    }
  }

  function AlertKey(ssid: string, x: Mac, y: Mac): string {
    var b1, b2 := MacString(x), MacString(y);
    if Greater(b1, b2) then ssid + ":" + b2 + ":" + b1 else ssid + ":" + b1 + ":" + b2
  }

  ghost predicate SamePair(x: Mac, y: Mac, p: Mac, q: Mac) { (x == p && y == q) || (x == q && y == p) }

  lemma OrderedKeyInjective(s: string, x: Mac, y: Mac, t: string, p: Mac, q: Mac)
    requires s + ":" + MacString(x) + ":" + MacString(y) == t + ":" + MacString(p) + ":" + MacString(q)
    ensures s == t && x == p && y == q
  {
    SuffixInjective(s + ":" + AddressString(Some(x)), Some(y), t + ":" + AddressString(Some(p)), Some(q));
    SuffixInjective(s, Some(x), t, Some(p));
  }

  /** A key stands for the SSID and the unordered pair, and for nothing else. */
  lemma AlertKeyIff(s: string, x: Mac, y: Mac, t: string, p: Mac, q: Mac)
    ensures AlertKey(s, x, y) == AlertKey(t, p, q) <==> s == t && SamePair(x, y, p, q)
  {
    hide MacString, Greater;
    GreaterTotal(MacString(x), MacString(y));
    if AlertKey(s, x, y) == AlertKey(t, p, q) {
      var (x1, y1) := if Greater(MacString(x), MacString(y)) then (y, x) else (x, y);
      var (p1, q1) := if Greater(MacString(p), MacString(q)) then (q, p) else (p, q);
      OrderedKeyInjective(s, x1, y1, t, p1, q1);
    } else if s == t && x == q && y == p && MacString(x) == MacString(y) {
      MacStringInjective(x, y);
    }
  }

  // ---- The rule's bookkeeping ----

  predicate Relevant(f: ParsedFrame) {
    (f.frameType == Beacon || f.frameType == ProbeResponse) && f.ssid != "" && f.bssid.Some?
  }

  function NewRecord(f: ParsedFrame): Record
    requires f.bssid.Some?
  {
    Record(f.bssid.value, f.channel, f.infoElements, f.capability, f.beaconInterval,
           f.timestamp, f.timestamp, f.rssi, 1)
  }

  function Updated(r: Record, f: ParsedFrame): Record {
    Record(r.addr,
           if f.channel != 0 then f.channel else r.channel,
           if f.infoElements.Some? then f.infoElements else r.infoElements,
           if f.capability != 0 then f.capability else r.capability,
           if f.beaconInterval != 0 then f.beaconInterval else r.beaconInterval,
           r.firstSeen, f.timestamp, f.rssi, r.beaconCount + 1)
  }

  /** The position of the record with this address; the length when there is none. */
  function Find(rs: seq<Record>, m: Mac): (i: nat)
    ensures i <= |rs| && (i < |rs| ==> rs[i].addr == m)
    ensures forall j :: 0 <= j < i ==> rs[j].addr != m
  {
    if rs == [] || rs[0].addr == m then 0
    else
      var i := Find(rs[1..], m);
      assert forall j :: 0 < j < i + 1 ==> rs[j] == rs[1..][j - 1];
      i + 1
  }

  function Upsert(rs: seq<Record>, f: ParsedFrame): seq<Record>
    requires f.bssid.Some?
  {
    var i := Find(rs, f.bssid.value);
    if i < |rs| then rs[i := Updated(rs[i], f)] else rs + [NewRecord(f)]
  }

  /** In-place compaction: the records seen within the timeout, in their order. */
  function Active(cfg: Config, rs: seq<Record>, now: Time): seq<Record> {
    if rs == [] then []
    else
      var init, r := Active(cfg, rs[..|rs| - 1], now), rs[|rs| - 1];
      if now - r.lastSeen <= cfg.staleTimeout then init + [r] else init
  }

  function ActiveLists(cfg: Config, aps: map<string, seq<Record>>, now: Time): map<string, seq<Record>> {
    map ssid | ssid in aps && Active(cfg, aps[ssid], now) != [] :: Active(cfg, aps[ssid], now)
  }

  function RecentAlerts(cfg: Config, alerted: map<string, Time>, now: Time): map<string, Time> {
    map k | k in alerted && now - alerted[k] <= cfg.staleTimeout :: alerted[k]
  }

  function CleanedUp(cfg: Config, s: State, now: Time): State {
    s.(aps := ActiveLists(cfg, s.aps, now), alerted := RecentAlerts(cfg, s.alerted, now))
  }

  predicate Sweeping(callCount: nat) { (callCount + 1) % CLEANUP_INTERVAL == 0 }

  function Entered(cfg: Config, s: State, now: Time): State {
    var t := s.(startedAt := if s.startedAt == 0 then now else s.startedAt, callCount := s.callCount + 1);
    if Sweeping(s.callCount) then CleanedUp(cfg, t, now) else t
  }

  function RecordsOf(s: State, ssid: string): seq<Record> { if ssid in s.aps then s.aps[ssid] else [] }

  /** `firstObservedAP`: a scan for the strictly smallest FirstSeen among the other BSSIDs. */
  function FirstObserved(rs: seq<Record>, excluded: Mac): Option<Record> {
    if rs == [] then None
    else
      var best, r := FirstObserved(rs[..|rs| - 1], excluded), rs[|rs| - 1];
      if r.addr == excluded then best
      else if best.None? || r.firstSeen < best.value.firstSeen then Some(r) else best
  }

  /** The state after the records are updated, before the alert is decided. */
  function Noted(cfg: Config, s: State, f: ParsedFrame): State
    requires Relevant(f)
  {
    var t := Entered(cfg, s, f.timestamp);
    t.(aps := t.aps[f.ssid := Upsert(RecordsOf(t, f.ssid), f)])
  }

  function Candidate(t: State, f: ParsedFrame): Option<Record>
    requires Relevant(f)
  {
    var rs := RecordsOf(t, f.ssid);
    var i := Find(rs, f.bssid.value);
    if i < |rs| then Some(rs[i]) else None
  }

  /** The access point the frame is compared with, when everything but suppression says to alert. */
  function Suspect(cfg: Config, t: State, f: ParsedFrame): Option<Record>
    requires Relevant(f)
  {
    var c := Candidate(t, f);
    var legitimate := FirstObserved(RecordsOf(t, f.ssid), f.bssid.value);
    if f.timestamp - t.startedAt < cfg.learningPeriod then None
    else if c.None? || c.value.beaconCount < cfg.minBeacons then None
    else if legitimate.None? || legitimate.value.beaconCount < cfg.minBeacons then None
    else if Score(legitimate.value, c.value) < cfg.scoreThreshold then None
    else legitimate
  }

  predicate Suppressed(cfg: Config, t: State, key: string, now: Time) {
    key in t.alerted && now - t.alerted[key] < cfg.staleTimeout
  }

  function EventFor(f: ParsedFrame, c: Record, legitimate: Record): TwinEvent
    requires Relevant(f)
  {
    TwinEvent(f.timestamp, Critical, f.ssid, c.addr, legitimate.addr, c.channel, c.rssi, c.beaconCount,
              f.timestamp - c.firstSeen, Score(legitimate, c), Mismatches(legitimate, c), legitimate.channel)
  }

  /** The event, if the comparison calls for one and the pair has not been reported within the timeout. */
  function Verdict(cfg: Config, t: State, f: ParsedFrame): (e: Option<TwinEvent>)
    requires Relevant(f)
  {
    match Suspect(cfg, t, f)
    case None => None
    case Some(legitimate) =>
      if Suppressed(cfg, t, AlertKey(f.ssid, legitimate.addr, f.bssid.value), f.timestamp) then None
      else Some(EventFor(f, Candidate(t, f).value, legitimate))
  }

  function Emitted(cfg: Config, s: State, f: ParsedFrame): Option<TwinEvent> {
    if Relevant(f) then Verdict(cfg, Noted(cfg, s, f), f) else None
  }

  function Reported(t: State, f: ParsedFrame, e: Option<TwinEvent>): State {
    match e
    case None => t
    case Some(e) => t.(alerted := t.alerted[AlertKey(f.ssid, e.legitimate, e.candidate) := f.timestamp])
  }

  function Step(cfg: Config, s: State, f: ParsedFrame): State {
    if Relevant(f) then Reported(Noted(cfg, s, f), f, Emitted(cfg, s, f)) else s
  }

  const INIT: State := State(0, map[], map[], 0)

  function Run(cfg: Config, log: seq<ParsedFrame>): State {
    if log == [] then INIT else Step(cfg, Run(cfg, log[..|log| - 1]), log[|log| - 1])
  }

  lemma RunSnoc(cfg: Config, log: seq<ParsedFrame>, f: ParsedFrame)
    ensures Run(cfg, log + [f]) == Step(cfg, Run(cfg, log), f)
  {
    hide Step;
    assert (log + [f])[..|log|] == log;
  }

  // ---- Records are folds of the frames since insertion ----

  ghost function Calls(log: seq<ParsedFrame>): nat {
    if log == [] then 0 else Calls(log[..|log| - 1]) + (if Relevant(log[|log| - 1]) then 1 else 0)
  }

  ghost predicate Announces(f: ParsedFrame, ssid: string, m: Mac) {
    Relevant(f) && f.ssid == ssid && f.bssid.value == m
  }

  /** Beacons and probe responses that name an SSID and a BSSID announce an access point, and nothing else does. */
  lemma AnnouncesIff(f: ParsedFrame, ssid: string, m: Mac)
    ensures Announces(f, ssid, m) <==>
      (f.frameType == Beacon || f.frameType == ProbeResponse) && f.ssid == ssid && |ssid| > 0 && f.bssid == Some(m)
  {
  }

  /** The part of a history that survives a relevant frame: a sweep that finds the last entry stale forgets it. */
  ghost function Kept(cfg: Config, h: seq<ParsedFrame>, calls: nat, f: ParsedFrame): seq<ParsedFrame> {
    if Sweeping(calls) && h != [] && f.timestamp - h[|h| - 1].timestamp > cfg.staleTimeout then [] else h
  }

  /** The announcements of `m` under `ssid` since it was last inserted. */
  ghost function Since(cfg: Config, log: seq<ParsedFrame>, ssid: string, m: Mac): seq<ParsedFrame> {
    if log == [] then []
    else
      var before, f := log[..|log| - 1], log[|log| - 1];
      var h := Since(cfg, before, ssid, m);
      if !Relevant(f) then h
      else Kept(cfg, h, Calls(before), f) + if Announces(f, ssid, m) then [f] else []
  }

  ghost function LatestNonZero(vs: seq<nat>): nat {
    if vs == [] then 0 else if vs[|vs| - 1] != 0 then vs[|vs| - 1] else LatestNonZero(vs[..|vs| - 1])
  }

  ghost function LatestSome(vs: seq<InfoElements>): InfoElements {
    if vs == [] then None else if vs[|vs| - 1].Some? then vs[|vs| - 1] else LatestSome(vs[..|vs| - 1])
  }

  ghost function Channels(h: seq<ParsedFrame>): seq<nat> { seq(|h|, i requires 0 <= i < |h| => h[i].channel) }

  ghost function Elements(h: seq<ParsedFrame>): seq<InfoElements> {
    seq(|h|, i requires 0 <= i < |h| => h[i].infoElements)
  }

  ghost function Capabilities(h: seq<ParsedFrame>): seq<nat> { seq(|h|, i requires 0 <= i < |h| => h[i].capability) }

  ghost function Intervals(h: seq<ParsedFrame>): seq<nat> { seq(|h|, i requires 0 <= i < |h| => h[i].beaconInterval) }

  /** What the frames since insertion say, field by field. */
  ghost function Summary(m: Mac, h: seq<ParsedFrame>): Option<Record> {
    if h == [] then None
    else
      var last := h[|h| - 1];
      Some(Record(m, LatestNonZero(Channels(h)), LatestSome(Elements(h)), LatestNonZero(Capabilities(h)),
                  LatestNonZero(Intervals(h)), h[0].timestamp, last.timestamp, last.rssi, |h|))
  }

  ghost function Held(rs: seq<Record>, m: Mac): Option<Record> {
    var i := Find(rs, m);
    if i < |rs| then Some(rs[i]) else None
  }

  // ---- Lists of records ----

  ghost predicate Distinct(rs: seq<Record>) {
    forall i, j :: 0 <= i < j < |rs| ==> rs[i].addr != rs[j].addr
  }

  lemma {:induction false} FindUnique(rs: seq<Record>, i: nat)
    requires i < |rs| && Distinct(rs)
    ensures Find(rs, rs[i].addr) == i
  {
    if i > 0 && rs[0].addr != rs[i].addr {
      FindUnique(rs[1..], i - 1);
    }
  }

  /** In a list without repeated addresses, holding a record is containing it. */
  lemma HeldIff(rs: seq<Record>, m: Mac, r: Record)
    requires Distinct(rs)
    ensures Held(rs, m) == Some(r) <==> r.addr == m && r in rs
  {
    if r in rs && r.addr == m {
      var i :| 0 <= i < |rs| && rs[i] == r;
      FindUnique(rs, i);
    }
  }

  lemma UpsertHeld(rs: seq<Record>, f: ParsedFrame, m: Mac)
    requires f.bssid.Some? && Distinct(rs)
    ensures Distinct(Upsert(rs, f))
    ensures Held(Upsert(rs, f), m) ==
      if f.bssid.value != m then Held(rs, m)
      else match Held(rs, m) case None => Some(NewRecord(f)) case Some(r) => Some(Updated(r, f))
  {
    var us, i, j := Upsert(rs, f), Find(rs, f.bssid.value), Find(rs, m);
    assert Distinct(us);
    if f.bssid.value == m {
      FindUnique(us, i);
    } else if j < |rs| {
      assert us[j].addr == m;
      FindUnique(us, j);
    } else {
      assert forall k :: 0 <= k < |us| ==> us[k].addr != m;
    }
  }

  lemma UpsertIs(rs: seq<Record>, f: ParsedFrame)
    requires f.bssid.Some?
    ensures var i := Find(rs, f.bssid.value);
      Upsert(rs, f) == if i < |rs| then rs[i := Updated(rs[i], f)] else rs + [NewRecord(f)]
  {
  }

  /** The candidate is the record that the frame updated or added. */
  lemma CandidateNoted(t: State, f: ParsedFrame, rs: seq<Record>)
    requires Relevant(f) && RecordsOf(t, f.ssid) == Upsert(rs, f)
    ensures var i := Find(rs, f.bssid.value);
      Candidate(t, f) == Some(if i < |rs| then Updated(rs[i], f) else NewRecord(f))
  {
    var us, i := Upsert(rs, f), Find(rs, f.bssid.value);
    assert us[i].addr == f.bssid.value;
    assert forall j :: 0 <= j < i ==> us[j] == rs[j];
  }

  predicate Recent(cfg: Config, r: Record, now: Time) { now - r.lastSeen <= cfg.staleTimeout }

  lemma {:induction false} ActiveMembers(cfg: Config, rs: seq<Record>, now: Time, r: Record)
    ensures r in Active(cfg, rs, now) <==> r in rs && Recent(cfg, r, now)
  {
    if rs != [] {
      ActiveMembers(cfg, rs[..|rs| - 1], now, r);
      assert rs == rs[..|rs| - 1] + [rs[|rs| - 1]];
    }
  }

  lemma {:induction false} ActiveDistinct(cfg: Config, rs: seq<Record>, now: Time)
    requires Distinct(rs)
    ensures Distinct(Active(cfg, rs, now))
  {
    if rs != [] {
      var init, r := rs[..|rs| - 1], rs[|rs| - 1];
      ActiveDistinct(cfg, init, now);
      forall x | x in Active(cfg, init, now) ensures x.addr != r.addr {
        ActiveMembers(cfg, init, now, x);
      }
    }
  }

  lemma ActiveHeld(cfg: Config, rs: seq<Record>, now: Time, m: Mac)
    requires Distinct(rs)
    ensures Held(Active(cfg, rs, now), m) ==
      if Held(rs, m).Some? && Recent(cfg, Held(rs, m).value, now) then Held(rs, m) else None
  {
    ActiveDistinct(cfg, rs, now);
    var a := Held(Active(cfg, rs, now), m);
    if a.Some? {
      HeldIff(Active(cfg, rs, now), m, a.value);
      ActiveMembers(cfg, rs, now, a.value);
      HeldIff(rs, m, a.value);
    } else if Held(rs, m).Some? {
      var r := Held(rs, m).value;
      HeldIff(rs, m, r);
      ActiveMembers(cfg, rs, now, r);
      HeldIff(Active(cfg, rs, now), m, r);
    }
  }

  // ---- One frame, seen from one SSID ----

  lemma EmptyActive(cfg: Config, now: Time)
    ensures Active(cfg, [], now) == []
  {
  }

  lemma EnteredRecords(cfg: Config, s: State, now: Time, ssid: string)
    ensures RecordsOf(Entered(cfg, s, now), ssid) ==
      if Sweeping(s.callCount) then Active(cfg, RecordsOf(s, ssid), now) else RecordsOf(s, ssid)
  {
    hide Active;
    assert Active(cfg, [], now) == [] by { EmptyActive(cfg, now); }
  }

  lemma EnteredCounts(cfg: Config, s: State, now: Time)
    ensures Entered(cfg, s, now).callCount == s.callCount + 1
  {
  }

  lemma StepRecords(cfg: Config, s: State, f: ParsedFrame, ssid: string)
    ensures RecordsOf(Step(cfg, s, f), ssid) ==
      if !Relevant(f) then RecordsOf(s, ssid)
      else
        var rs := RecordsOf(Entered(cfg, s, f.timestamp), ssid);
        if f.ssid == ssid then Upsert(rs, f) else rs
    ensures Step(cfg, s, f).callCount == s.callCount + (if Relevant(f) then 1 else 0)
  {
    hide Entered, Upsert, Suspect, AlertKey;
    if Relevant(f) { EnteredCounts(cfg, s, f.timestamp); }
  }

  lemma {:induction false} CallsCounted(cfg: Config, log: seq<ParsedFrame>)
    ensures Run(cfg, log).callCount == Calls(log)
    ensures Sweeping(Run(cfg, log).callCount) <==> (Calls(log) + 1) % 10000 == 0
  {
    if log != [] {
      hide Step;
      CallsCounted(cfg, log[..|log| - 1]);
      StepRecords(cfg, Run(cfg, log[..|log| - 1]), log[|log| - 1], "");
    }
  }

  lemma InitEmpty(cfg: Config, ssid: string)
    ensures RecordsOf(Run(cfg, []), ssid) == []
  {
  }

  lemma {:induction false} RunDistinct(cfg: Config, log: seq<ParsedFrame>, ssid: string)
    ensures Distinct(RecordsOf(Run(cfg, log), ssid))
  {
    if log != [] {
      hide Step, RecordsOf, Distinct, Entered, Upsert;
      var s, f := Run(cfg, log[..|log| - 1]), log[|log| - 1];
      RunDistinct(cfg, log[..|log| - 1], ssid);
      StepRecords(cfg, s, f, ssid);
      if Relevant(f) {
        EnteredRecords(cfg, s, f.timestamp, ssid);
        ActiveDistinct(cfg, RecordsOf(s, ssid), f.timestamp);
        UpsertHeld(RecordsOf(Entered(cfg, s, f.timestamp), ssid), f, f.bssid.value);
      }
    } else {
      InitEmpty(cfg, ssid);
    }
  }

  // ---- Records summarise the frames since insertion ----

  lemma LatestNonZeroSnoc(vs: seq<nat>, v: nat)
    ensures LatestNonZero(vs + [v]) == if v != 0 then v else LatestNonZero(vs)
  {
    assert (vs + [v])[..|vs|] == vs;
  }

  lemma LatestSomeSnoc(vs: seq<InfoElements>, v: InfoElements)
    ensures LatestSome(vs + [v]) == if v.Some? then v else LatestSome(vs)
  {
    assert (vs + [v])[..|vs|] == vs;
  }

  lemma SummarySnoc(m: Mac, h: seq<ParsedFrame>, f: ParsedFrame)
    requires f.bssid == Some(m)
    ensures Summary(m, h + [f]) ==
      Some(match Summary(m, h) case None => NewRecord(f) case Some(r) => Updated(r, f))
  {
    LatestNonZeroSnoc(Channels(h), f.channel);
    LatestNonZeroSnoc(Capabilities(h), f.capability);
    LatestNonZeroSnoc(Intervals(h), f.beaconInterval);
    LatestSomeSnoc(Elements(h), f.infoElements);
    assert Channels(h + [f]) == Channels(h) + [f.channel];
    assert Capabilities(h + [f]) == Capabilities(h) + [f.capability];
    assert Intervals(h + [f]) == Intervals(h) + [f.beaconInterval];
    assert Elements(h + [f]) == Elements(h) + [f.infoElements];
  }

  lemma SummaryLast(m: Mac, h: seq<ParsedFrame>)
    ensures Summary(m, h).Some? <==> h != []
    ensures h != [] ==> Summary(m, h).value.lastSeen == h[|h| - 1].timestamp
  {
  }

  lemma NothingHeld(m: Mac)
    ensures Held([], m) == None && Summary(m, []) == None
  {
  }

  /** What one relevant frame makes of a held record. */
  lemma HeldNext(cfg: Config, before: seq<ParsedFrame>, f: ParsedFrame, ssid: string, m: Mac)
    requires Relevant(f)
    ensures var s := Run(cfg, before);
      var h := Held(RecordsOf(s, ssid), m);
      var kept := if Sweeping(s.callCount) && h.Some? && !Recent(cfg, h.value, f.timestamp) then None else h;
      Held(RecordsOf(Step(cfg, s, f), ssid), m) ==
        if !Announces(f, ssid, m) then kept
        else match kept case None => Some(NewRecord(f)) case Some(r) => Some(Updated(r, f))
  {
    hide Step, RecordsOf, Entered, Upsert, Held, Updated, NewRecord, Distinct, Active, Run, Recent, Sweeping;
    var s := Run(cfg, before);
    var rs := RecordsOf(s, ssid);
    StepRecords(cfg, s, f, ssid);
    RunDistinct(cfg, before, ssid);
    EnteredRecords(cfg, s, f.timestamp, ssid);
    ActiveHeld(cfg, rs, f.timestamp, m);
    ActiveDistinct(cfg, rs, f.timestamp);
    UpsertHeld(RecordsOf(Entered(cfg, s, f.timestamp), ssid), f, m);
  }

  /** And what it makes of the history. */
  lemma SinceNext(cfg: Config, before: seq<ParsedFrame>, f: ParsedFrame, ssid: string, m: Mac)
    requires Relevant(f)
    ensures Since(cfg, before + [f], ssid, m)
         == Kept(cfg, Since(cfg, before, ssid, m), Calls(before), f) + if Announces(f, ssid, m) then [f] else []
  {
    hide Calls, Announces, Relevant, Kept;
    assert (before + [f])[..|before|] == before;
    var kept := Kept(cfg, Since(cfg, before, ssid, m), Calls(before), f);
    assert kept + [] == kept;
  }

  lemma SummaryNext(cfg: Config, before: seq<ParsedFrame>, f: ParsedFrame, ssid: string, m: Mac)
    requires Relevant(f)
    requires Held(RecordsOf(Run(cfg, before), ssid), m) == Summary(m, Since(cfg, before, ssid, m))
    ensures Held(RecordsOf(Step(cfg, Run(cfg, before), f), ssid), m) == Summary(m, Since(cfg, before + [f], ssid, m))
  {
    hide Step, RecordsOf, Held, Summary, Updated, NewRecord, Run, Sweeping, Since, Calls;
    var h := Since(cfg, before, ssid, m);
    CallsCounted(cfg, before);
    HeldNext(cfg, before, f, ssid, m);
    SinceNext(cfg, before, f, ssid, m);
    SummaryLast(m, h);
    SummaryLast(m, []);
    if Announces(f, ssid, m) {
      SummarySnoc(m, h, f);
      SummarySnoc(m, [], f);
    } else {
      assert h + [] == h;
    }
  }

  /**
   * Through any run and any timestamps, a listed record is the fold of its announcements since it was
   * inserted: BeaconCount is their number, FirstSeen the first one's time, LastSeen and RSSI the last
   * one's, and every other field the latest value announced.
   */
  lemma {:induction false} RecordsAreSummaries(cfg: Config, log: seq<ParsedFrame>, ssid: string, m: Mac)
    ensures Held(RecordsOf(Run(cfg, log), ssid), m) == Summary(m, Since(cfg, log, ssid, m))
  {
    hide Step, RecordsOf, Held, Summary;
    if log != [] {
      var before, f := log[..|log| - 1], log[|log| - 1];
      RecordsAreSummaries(cfg, before, ssid, m);
      assert before + [f] == log;
      if Relevant(f) {
        SummaryNext(cfg, before, f, ssid, m);
      } else {
        StepRecords(cfg, Run(cfg, before), f, ssid);
      }
    } else {
      InitEmpty(cfg, ssid);
      NothingHeld(m);
    }
  }

  // ---- The order of a list is the order of first observation ----

  /** Announcements arrive with timestamps that never go back. */
  ghost predicate Ordered(log: seq<ParsedFrame>) {
    forall i, j :: 0 <= i < j < |log| && Relevant(log[i]) && Relevant(log[j]) ==> log[i].timestamp <= log[j].timestamp
  }

  /** The time of the last relevant frame; 0 before the first. */
  ghost function Latest(log: seq<ParsedFrame>): Time {
    if log == [] then 0
    else if Relevant(log[|log| - 1]) then log[|log| - 1].timestamp
    else Latest(log[..|log| - 1])
  }

  lemma {:induction false} LatestBounded(log: seq<ParsedFrame>, k: nat, n: nat)
    requires k <= n < |log| && Ordered(log) && Relevant(log[n])
    ensures Latest(log[..k]) <= log[n].timestamp
  {
    if k > 0 {
      assert log[..k][..k - 1] == log[..k - 1] && log[..k][k - 1] == log[k - 1];
      LatestBounded(log, k - 1, n);
    }
  }

  lemma {:induction false} LatestIsLast(log: seq<ParsedFrame>, n: nat)
    requires n < |log| && Ordered(log) && Relevant(log[n])
    ensures Latest(log[..n]) <= log[n].timestamp
  {
    LatestBounded(log, n, n);
  }

  ghost predicate InOrder(rs: seq<Record>, hi: Time) {
    && (forall i, j :: 0 <= i < j < |rs| ==> rs[i].firstSeen <= rs[j].firstSeen)
    && (forall i :: 0 <= i < |rs| ==> rs[i].firstSeen <= hi)
  }

  lemma {:induction false} ActiveInOrder(cfg: Config, rs: seq<Record>, now: Time, hi: Time)
    requires InOrder(rs, hi)
    ensures InOrder(Active(cfg, rs, now), hi)
  {
    if rs != [] {
      var init, r := rs[..|rs| - 1], rs[|rs| - 1];
      ActiveInOrder(cfg, init, now, hi);
      ActiveInOrder(cfg, init, now, r.firstSeen);
    }
  }

  lemma UpsertInOrder(rs: seq<Record>, f: ParsedFrame, hi: Time)
    requires f.bssid.Some? && InOrder(rs, hi) && hi <= f.timestamp
    ensures InOrder(Upsert(rs, f), f.timestamp)
  {
  }

  lemma InOrderLater(rs: seq<Record>, hi: Time, later: Time)
    requires InOrder(rs, hi) && hi <= later
    ensures InOrder(rs, later)
  {
  }

  /** Through any run, in-place compaction included, each list has distinct BSSIDs in non-decreasing FirstSeen order. */
  lemma {:induction false} ListsInOrder(cfg: Config, log: seq<ParsedFrame>, n: nat, ssid: string)
    requires n <= |log| && Ordered(log)
    ensures InOrder(RecordsOf(Run(cfg, log[..n]), ssid), Latest(log[..n]))
    ensures Distinct(RecordsOf(Run(cfg, log[..n]), ssid))
  {
    RunDistinct(cfg, log[..n], ssid);
    if n > 0 {
      hide Step, RecordsOf, Distinct, Entered, Upsert, InOrder, Active;
      var before, f := log[..n - 1], log[n - 1];
      assert log[..n][..n - 1] == before;
      var s := Run(cfg, before);
      ListsInOrder(cfg, log, n - 1, ssid);
      StepRecords(cfg, s, f, ssid);
      if Relevant(f) {
        LatestIsLast(log, n - 1);
        EnteredRecords(cfg, s, f.timestamp, ssid);
        ActiveInOrder(cfg, RecordsOf(s, ssid), f.timestamp, Latest(before));
        UpsertInOrder(RecordsOf(Entered(cfg, s, f.timestamp), ssid), f, Latest(before));
        InOrderLater(RecordsOf(Entered(cfg, s, f.timestamp), ssid), Latest(before), f.timestamp);
      }
    } else {
      InitEmpty(cfg, ssid);
    }
  }

  /** The first listed record of another access point. */
  ghost function FirstListed(rs: seq<Record>, excluded: Mac): Option<Record> {
    if rs == [] then None else if rs[0].addr != excluded then Some(rs[0]) else FirstListed(rs[1..], excluded)
  }

  lemma {:induction false} FirstListedSnoc(rs: seq<Record>, r: Record, excluded: Mac)
    ensures FirstListed(rs + [r], excluded) ==
      if FirstListed(rs, excluded).Some? then FirstListed(rs, excluded)
      else if r.addr != excluded then Some(r) else None
  {
    if rs != [] {
      assert (rs + [r])[1..] == rs[1..] + [r];
      FirstListedSnoc(rs[1..], r, excluded);
    } else {
      assert (rs + [r])[1..] == [];
    }
  }

  /** The scan for the smallest FirstSeen finds the first listed record of another access point. */
  lemma {:induction false} ScanFindsFirst(rs: seq<Record>, excluded: Mac, hi: Time)
    requires InOrder(rs, hi)
    ensures FirstObserved(rs, excluded) == FirstListed(rs, excluded)
    ensures FirstObserved(rs, excluded).Some? ==> FirstObserved(rs, excluded).value in rs
  {
    if rs != [] {
      var init, r := rs[..|rs| - 1], rs[|rs| - 1];
      assert rs == init + [r];
      ScanFindsFirst(init, excluded, r.firstSeen);
      FirstListedSnoc(init, r, excluded);
    }
  }

  // ---- The comparison, in terms of the history ----

  lemma {:induction false} FirstObservedLeast(rs: seq<Record>, excluded: Mac)
    ensures var first := FirstObserved(rs, excluded);
      && (first.Some? ==> first.value in rs && first.value.addr != excluded)
      && forall r :: r in rs && r.addr != excluded ==> first.Some? && first.value.firstSeen <= r.firstSeen
  {
    if rs != [] {
      FirstObservedLeast(rs[..|rs| - 1], excluded);
      assert rs == rs[..|rs| - 1] + [rs[|rs| - 1]];
    }
  }

  lemma NotedRecords(cfg: Config, log: seq<ParsedFrame>, f: ParsedFrame)
    requires Relevant(f)
    ensures RecordsOf(Noted(cfg, Run(cfg, log), f), f.ssid) == RecordsOf(Run(cfg, log + [f]), f.ssid)
  {
    hide Entered, Upsert, Suspect, AlertKey, Run;
    RunSnoc(cfg, log, f);
  }

  /** The announcements of `m` under the frame's SSID that the rule still accounts for, this frame's included. */
  ghost function Announced(cfg: Config, log: seq<ParsedFrame>, f: ParsedFrame, m: Mac): seq<ParsedFrame> {
    Since(cfg, log + [f], f.ssid, m)
  }

  lemma SummaryFirst(m: Mac, h: seq<ParsedFrame>)
    requires h != []
    ensures Summary(m, h).Some? && Summary(m, h).value.firstSeen == h[0].timestamp && Summary(m, h).value.addr == m
  {
  }

  /**
   * What a frame is judged by, for any timestamps: its own access point summarised from its announcements,
   * and, among the other access points announcing the SSID, one that was first announced earliest.
   */
  lemma ComparisonFromHistory(cfg: Config, log: seq<ParsedFrame>, f: ParsedFrame)
    requires Relevant(f)
    ensures var t, me := Noted(cfg, Run(cfg, log), f), f.bssid.value;
      var first := FirstObserved(RecordsOf(t, f.ssid), me);
      && Candidate(t, f) == Summary(me, Announced(cfg, log, f, me))
      && (first.Some? ==>
            first.value.addr != me && first == Summary(first.value.addr, Announced(cfg, log, f, first.value.addr)))
      && forall m :: m != me && Announced(cfg, log, f, m) != [] ==>
           first.Some? && first.value.firstSeen <= Announced(cfg, log, f, m)[0].timestamp
  {
    hide Run, Noted, FirstObserved, Since, Summary, Distinct;
    var rs, me := RecordsOf(Run(cfg, log + [f]), f.ssid), f.bssid.value;
    NotedRecords(cfg, log, f);
    RunDistinct(cfg, log + [f], f.ssid);
    FirstObservedLeast(rs, me);
    forall m: Mac ensures Held(rs, m) == Summary(m, Announced(cfg, log, f, m)) {
      RecordsAreSummaries(cfg, log + [f], f.ssid, m);
    }
    var first := FirstObserved(rs, me);
    if first.Some? {
      HeldIff(rs, first.value.addr, first.value);
    }
    forall m: Mac | m != me && Announced(cfg, log, f, m) != []
      ensures first.Some? && first.value.firstSeen <= Announced(cfg, log, f, m)[0].timestamp {
      SummaryFirst(m, Announced(cfg, log, f, m));
      HeldIff(rs, m, Held(rs, m).value);
    }
  }

  /** The latest known value is that of an announcement after which none had one to give. */
  lemma {:induction false} LatestNonZeroIs(vs: seq<nat>)
    ensures LatestNonZero(vs) == 0 <==> forall i :: 0 <= i < |vs| ==> vs[i] == 0
    ensures LatestNonZero(vs) != 0 ==>
      exists i :: 0 <= i < |vs| && vs[i] == LatestNonZero(vs) && forall j :: i < j < |vs| ==> vs[j] == 0
  {
    if vs != [] {
      LatestNonZeroIs(vs[..|vs| - 1]);
    }
  }

  lemma {:induction false} LatestSomeIs(vs: seq<InfoElements>)
    ensures LatestSome(vs) == None <==> forall i :: 0 <= i < |vs| ==> vs[i] == None
    ensures LatestSome(vs) != None ==>
      exists i :: 0 <= i < |vs| && vs[i] == LatestSome(vs) && forall j :: i < j < |vs| ==> vs[j] == None
  {
    if vs != [] {
      LatestSomeIs(vs[..|vs| - 1]);
    }
  }

  lemma SinceEnds(cfg: Config, log: seq<ParsedFrame>, f: ParsedFrame)
    requires Relevant(f)
    ensures var mine := Announced(cfg, log, f, f.bssid.value); mine != [] && mine[|mine| - 1] == f
  {
    hide Kept;
    assert (log + [f])[..|log|] == log;
  }

  /** What an alert says, read off the announcements of the two access points since they were inserted. */
  lemma AlertSays(cfg: Config, log: seq<ParsedFrame>, f: ParsedFrame)
    requires Emitted(cfg, Run(cfg, log), f).Some?
    ensures var e := Emitted(cfg, Run(cfg, log), f).value;
      var mine, theirs := Announced(cfg, log, f, e.candidate), Announced(cfg, log, f, e.legitimate);
      && e.ssid == f.ssid && f.bssid == Some(e.candidate) && e.legitimate != e.candidate && mine != [] && theirs != []
      && e.timestamp == f.timestamp && e.severity == Critical && e.rssi == f.rssi
      && e.channel == LatestNonZero(Channels(mine)) && e.legitimateChannel == LatestNonZero(Channels(theirs))
      && e.frameCount == |mine| && e.duration == f.timestamp - mine[0].timestamp
      && Compares(Summary(e.legitimate, theirs).value, Summary(e.candidate, mine).value, e.score, e.mismatches)
  {
    hide Run, Noted, FirstObserved, Candidate, Announced, Score, Mismatches, LatestNonZero, LatestSome, AlertKey;
    hide Compares;
    ComparisonFromHistory(cfg, log, f);
    SinceEnds(cfg, log, f);
    var t := Noted(cfg, Run(cfg, log), f);
    ScoreIs(FirstObserved(RecordsOf(t, f.ssid), f.bssid.value).value, Candidate(t, f).value);
  }

  // ---- The order of a list is the order of insertion ----

  /** The frame that inserted the listed record of `m`; -1 when none is listed. */
  ghost function Inserted(cfg: Config, log: seq<ParsedFrame>, ssid: string, m: Mac): int {
    if log == [] then -1
    else
      var before, f := log[..|log| - 1], log[|log| - 1];
      var i := Inserted(cfg, before, ssid, m);
      if !Relevant(f) then i
      else
        var kept := if Kept(cfg, Since(cfg, before, ssid, m), Calls(before), f) == [] then -1 else i;
        if Announces(f, ssid, m) && kept == -1 then |before| else kept
  }

  ghost function Insertions(cfg: Config, log: seq<ParsedFrame>, ssid: string): Mac -> int {
    (m: Mac) => Inserted(cfg, log, ssid, m)
  }

  /** It is the first of the announcements since insertion. */
  lemma {:induction false} InsertedFirst(cfg: Config, log: seq<ParsedFrame>, ssid: string, m: Mac)
    ensures var i, h := Inserted(cfg, log, ssid, m), Since(cfg, log, ssid, m);
      && -1 <= i < |log| && (i >= 0 <==> h != [])
      && (i >= 0 ==> h[0] == log[i] && Announces(log[i], ssid, m))
  {
    hide Calls, Sweeping, Announces, Relevant;
    if log != [] {
      InsertedFirst(cfg, log[..|log| - 1], ssid, m);
    }
  }

  ghost predicate Ascending(rs: seq<Record>, key: Mac -> int) {
    forall i, j :: 0 <= i < j < |rs| ==> key(rs[i].addr) < key(rs[j].addr)
  }

  lemma {:induction false} ActiveAscending(cfg: Config, rs: seq<Record>, now: Time, key: Mac -> int)
    requires Ascending(rs, key)
    ensures Ascending(Active(cfg, rs, now), key)
  {
    if rs != [] {
      var init, r := rs[..|rs| - 1], rs[|rs| - 1];
      ActiveAscending(cfg, init, now, key);
      forall i | 0 <= i < |Active(cfg, init, now)| ensures key(Active(cfg, init, now)[i].addr) < key(r.addr) {
        ActiveMembers(cfg, init, now, Active(cfg, init, now)[i]);
      }
    }
  }

  /** The keys of what the frame finds do not change, and a new record gets the greatest key of all. */
  lemma UpsertAscending(rs: seq<Record>, f: ParsedFrame, key: Mac -> int, next: Mac -> int)
    requires f.bssid.Some? && Ascending(rs, key)
    requires forall i :: 0 <= i < |rs| ==> next(rs[i].addr) == key(rs[i].addr)
    requires Held(rs, f.bssid.value) == None ==>
      forall i :: 0 <= i < |rs| ==> key(rs[i].addr) < next(f.bssid.value)
    ensures Ascending(Upsert(rs, f), next) && Ascending(rs, next)
  {
  }

  /** A record found by a frame is one whose history survives the frame. */
  lemma FoundIff(cfg: Config, before: seq<ParsedFrame>, f: ParsedFrame, ssid: string, m: Mac)
    requires Relevant(f)
    ensures Held(RecordsOf(Entered(cfg, Run(cfg, before), f.timestamp), ssid), m).Some?
       <==> Kept(cfg, Since(cfg, before, ssid, m), Calls(before), f) != []
  {
    hide RecordsOf, Entered, Held, Active, Run, Since, Summary, Sweeping, Distinct;
    var s := Run(cfg, before);
    CallsCounted(cfg, before);
    RunDistinct(cfg, before, ssid);
    EnteredRecords(cfg, s, f.timestamp, ssid);
    ActiveHeld(cfg, RecordsOf(s, ssid), f.timestamp, m);
    RecordsAreSummaries(cfg, before, ssid, m);
    SummaryLast(m, Since(cfg, before, ssid, m));
  }

  lemma KeptPart(cfg: Config, h: seq<ParsedFrame>, calls: nat, f: ParsedFrame)
    ensures Kept(cfg, h, calls, f) == h || Kept(cfg, h, calls, f) == []
  {
  }

  lemma InsertedNext(cfg: Config, before: seq<ParsedFrame>, f: ParsedFrame, ssid: string, m: Mac)
    requires Relevant(f)
    ensures var found := Held(RecordsOf(Entered(cfg, Run(cfg, before), f.timestamp), ssid), m).Some?;
      Inserted(cfg, before + [f], ssid, m) ==
        if found then Inserted(cfg, before, ssid, m) else if Announces(f, ssid, m) then |before| else -1
  {
    hide RecordsOf, Entered, Held, Run, Announces, Kept, Relevant;
    FoundIff(cfg, before, f, ssid, m);
    InsertedFirst(cfg, before, ssid, m);
    KeptPart(cfg, Since(cfg, before, ssid, m), Calls(before), f);
    assert (before + [f])[..|before|] == before;
  }

  lemma MemberHeld(rs: seq<Record>, i: nat)
    requires i < |rs| && Distinct(rs)
    ensures Held(rs, rs[i].addr).Some?
  {
    FindUnique(rs, i);
  }

  ghost predicate ListedByInsertion(cfg: Config, log: seq<ParsedFrame>, ssid: string) {
    Ascending(RecordsOf(Run(cfg, log), ssid), Insertions(cfg, log, ssid))
  }

  lemma RelevantHas(f: ParsedFrame)
    requires Relevant(f)
    ensures f.bssid.Some?
  {
  }

  lemma AscendingSame(rs: seq<Record>, key: Mac -> int, next: Mac -> int)
    requires Ascending(rs, key) && forall i :: 0 <= i < |rs| ==> next(rs[i].addr) == key(rs[i].addr)
    ensures Ascending(rs, next)
  {
  }

  lemma InsertionNext(cfg: Config, before: seq<ParsedFrame>, f: ParsedFrame, ssid: string)
    requires Relevant(f) && ListedByInsertion(cfg, before, ssid)
    ensures ListedByInsertion(cfg, before + [f], ssid)
  {
    hide RecordsOf, Entered, Held, Run, Ascending, Relevant, Inserted, Step, Upsert, Distinct, Active;
    var s := Run(cfg, before);
    var rs := RecordsOf(Entered(cfg, s, f.timestamp), ssid);
    var key, next := Insertions(cfg, before, ssid), Insertions(cfg, before + [f], ssid);
    RunSnoc(cfg, before, f);
    StepRecords(cfg, s, f, ssid);
    EnteredRecords(cfg, s, f.timestamp, ssid);
    RunDistinct(cfg, before, ssid);
    ActiveDistinct(cfg, RecordsOf(s, ssid), f.timestamp);
    ActiveAscending(cfg, RecordsOf(s, ssid), f.timestamp, key);
    RelevantHas(f);
    forall i | 0 <= i < |rs|
      ensures next(rs[i].addr) == key(rs[i].addr) && key(rs[i].addr) < |before| {
      MemberHeld(rs, i);
      InsertedNext(cfg, before, f, ssid, rs[i].addr);
      InsertedFirst(cfg, before, ssid, rs[i].addr);
    }
    if f.ssid == ssid {
      InsertedNext(cfg, before, f, ssid, f.bssid.value);
      UpsertAscending(rs, f, key, next);
    } else {
      AscendingSame(rs, key, next);
    }
  }

  lemma NothingInserted(cfg: Config, before: seq<ParsedFrame>, f: ParsedFrame, ssid: string)
    requires !Relevant(f) && ListedByInsertion(cfg, before, ssid)
    ensures ListedByInsertion(cfg, before + [f], ssid)
  {
    hide RecordsOf, Run, Step;
    RunSnoc(cfg, before, f);
    StepRecords(cfg, Run(cfg, before), f, ssid);
    assert (before + [f])[..|before|] == before;
  }

  /** For any timestamps, every list is in the order in which its records were inserted. */
  lemma {:induction false} ListsByInsertion(cfg: Config, log: seq<ParsedFrame>, ssid: string)
    ensures ListedByInsertion(cfg, log, ssid)
  {
    if log != [] {
      var before, f := log[..|log| - 1], log[|log| - 1];
      ListsByInsertion(cfg, before, ssid);
      assert before + [f] == log;
      if Relevant(f) {
        InsertionNext(cfg, before, f, ssid);
      } else {
        NothingInserted(cfg, before, f, ssid);
      }
    } else {
      InitEmpty(cfg, ssid);
    }
  }

  /** `first` has the smallest FirstSeen of the other access points, and among those the smallest key. */
  ghost predicate IsLeast(rs: seq<Record>, excluded: Mac, key: Mac -> int, first: Option<Record>) {
    && (first.Some? ==> first.value in rs && first.value.addr != excluded)
    && forall i :: 0 <= i < |rs| && rs[i].addr != excluded ==>
         && first.Some? && first.value.firstSeen <= rs[i].firstSeen
         && (first.value.firstSeen == rs[i].firstSeen ==> key(first.value.addr) <= key(rs[i].addr))
  }

  lemma LeastSnoc(init: seq<Record>, r: Record, excluded: Mac, key: Mac -> int, best: Option<Record>)
    requires IsLeast(init, excluded, key, best)
    requires forall i :: 0 <= i < |init| ==> key(init[i].addr) < key(r.addr)
    ensures IsLeast(init + [r], excluded, key,
                    if r.addr == excluded then best
                    else if best.None? || r.firstSeen < best.value.firstSeen then Some(r) else best)
  {
    var rs := init + [r];
    assert rs[|init|] == r && forall i :: 0 <= i < |init| ==> rs[i] == init[i];
  }

  /** The scan finds the record with the smallest FirstSeen, and among those the one inserted first. */
  lemma {:induction false} FirstObservedLeastKey(rs: seq<Record>, excluded: Mac, key: Mac -> int)
    requires Ascending(rs, key)
    ensures IsLeast(rs, excluded, key, FirstObserved(rs, excluded))
  {
    if rs != [] {
      var init, r := rs[..|rs| - 1], rs[|rs| - 1];
      assert rs == init + [r];
      FirstObservedLeastKey(init, excluded, key);
      LeastSnoc(init, r, excluded, key, FirstObserved(init, excluded));
    }
  }

  /** `x` was first announced before `y`; announcements with the same timestamp count in the order of their frames. */
  ghost predicate Precedes(cfg: Config, log: seq<ParsedFrame>, ssid: string, x: Mac, y: Mac)
    requires Since(cfg, log, ssid, x) != [] && Since(cfg, log, ssid, y) != []
  {
    var p, q := Since(cfg, log, ssid, x)[0].timestamp, Since(cfg, log, ssid, y)[0].timestamp;
    p < q || (p == q && Inserted(cfg, log, ssid, x) <= Inserted(cfg, log, ssid, y))
  }

  /** Among the access points that announce the SSID besides `me`, `other` was announced first. */
  ghost predicate EarliestOther(cfg: Config, log: seq<ParsedFrame>, ssid: string, me: Mac, other: Mac) {
    && other != me && Since(cfg, log, ssid, other) != []
    && forall m :: m != me && Since(cfg, log, ssid, m) != [] ==> Precedes(cfg, log, ssid, other, m)
  }

  lemma EarliestUnique(cfg: Config, log: seq<ParsedFrame>, ssid: string, me: Mac, x: Mac, y: Mac)
    requires EarliestOther(cfg, log, ssid, me, x) && EarliestOther(cfg, log, ssid, me, y)
    ensures x == y
  {
    hide Since, Inserted;
    assert Precedes(cfg, log, ssid, x, y) && Precedes(cfg, log, ssid, y, x);
    InsertedFirst(cfg, log, ssid, x);
    InsertedFirst(cfg, log, ssid, y);
  }

  /** What is held of `m` says when it was first announced. */
  lemma HeldFirst(cfg: Config, log: seq<ParsedFrame>, ssid: string, m: Mac)
    ensures var held, h := Held(RecordsOf(Run(cfg, log), ssid), m), Since(cfg, log, ssid, m);
      && held == Summary(m, h) && (held.Some? <==> h != [])
      && (h != [] ==> held.value.firstSeen == h[0].timestamp && held.value.addr == m)
  {
    hide Run, RecordsOf, Since, Held;
    RecordsAreSummaries(cfg, log, ssid, m);
  }

  /** `firstObservedAP` on the history: the earliest announced of the other access points, if there is one. */
  lemma FirstObservedIs(cfg: Config, log: seq<ParsedFrame>, ssid: string, me: Mac)
    ensures var first := FirstObserved(RecordsOf(Run(cfg, log), ssid), me);
      && (first.Some? ==> EarliestOther(cfg, log, ssid, me, first.value.addr)
                          && first == Summary(first.value.addr, Since(cfg, log, ssid, first.value.addr)))
      && (first.None? ==> forall m :: m != me ==> Since(cfg, log, ssid, m) == [])
  {
    hide Run, RecordsOf, Since, Summary, Held, FirstObserved, Inserted, Ascending, Distinct;
    var rs, key := RecordsOf(Run(cfg, log), ssid), Insertions(cfg, log, ssid);
    var first := FirstObserved(rs, me);
    ListsByInsertion(cfg, log, ssid);
    RunDistinct(cfg, log, ssid);
    FirstObservedLeastKey(rs, me, key);
    if first.Some? {
      HeldIff(rs, first.value.addr, first.value);
      HeldFirst(cfg, log, ssid, first.value.addr);
    }
    forall m: Mac | m != me && Since(cfg, log, ssid, m) != []
      ensures first.Some? && Since(cfg, log, ssid, first.value.addr) != []
           && Precedes(cfg, log, ssid, first.value.addr, m) {
      HeldFirst(cfg, log, ssid, m);
      HeldIff(rs, m, Held(rs, m).value);
    }
  }

  // ---- When an alert is called for, in terms of the history ----

  ghost function Times(log: seq<ParsedFrame>): seq<Time> {
    if log == [] then []
    else
      var before, f := Times(log[..|log| - 1]), log[|log| - 1];
      if Relevant(f) then before + [f.timestamp] else before
  }

  /** The timestamp of the first announcement that has one; 0 before it. */
  ghost function StartTime(log: seq<ParsedFrame>): Time { FirstNonZero(Times(log)) }

  lemma StepStarts(cfg: Config, s: State, f: ParsedFrame)
    ensures Step(cfg, s, f).startedAt == if s.startedAt == 0 && Relevant(f) then f.timestamp else s.startedAt
    ensures Relevant(f) ==> Noted(cfg, s, f).startedAt == Step(cfg, s, f).startedAt
  {
    hide Upsert, Suspect, AlertKey, ActiveLists, RecentAlerts;
  }

  lemma {:induction false} StartedAtIs(cfg: Config, log: seq<ParsedFrame>)
    ensures Run(cfg, log).startedAt == StartTime(log)
  {
    hide Step, Relevant;
    if log != [] {
      var before, f := log[..|log| - 1], log[|log| - 1];
      StartedAtIs(cfg, before);
      StepStarts(cfg, Run(cfg, before), f);
      FirstNonZeroSnoc(Times(before), f.timestamp);
    }
  }

  /**
   * The `n`-th frame calls for an alert against `other`: learning is over, both access points have been
   * announced often enough since they were inserted, `other` was announced first, and they differ enough.
   */
  ghost predicate CallsFor(cfg: Config, log: seq<ParsedFrame>, n: nat, other: Mac)
    requires n < |log|
  {
    var f, seen := log[n], log[..n + 1];
    Relevant(f) &&
    var me := f.bssid.value;
    var mine, theirs := Since(cfg, seen, f.ssid, me), Since(cfg, seen, f.ssid, other);
    && f.timestamp - StartTime(seen) >= cfg.learningPeriod
    && |mine| >= cfg.minBeacons && |theirs| >= cfg.minBeacons
    && EarliestOther(cfg, seen, f.ssid, me, other)
    && Score(Summary(other, theirs).value, Summary(me, mine).value) >= cfg.scoreThreshold
  }

  // ---- Alerts over whole runs ----

  /** The `k`-th frame raises an event for this SSID and this unordered pair. */
  ghost predicate AlertAt(cfg: Config, log: seq<ParsedFrame>, ssid: string, x: Mac, y: Mac, k: int) {
    0 <= k < |log| &&
    var e := Emitted(cfg, Run(cfg, log[..k]), log[k]);
    e.Some? && e.value.ssid == ssid && SamePair(e.value.legitimate, e.value.candidate, x, y)
  }

  /** A relevant frame among the first `n` runs the sweep more than the timeout after `t`. */
  ghost predicate SweptAfter(cfg: Config, log: seq<ParsedFrame>, n: nat, t: Time)
    requires n <= |log|
  {
    exists k :: 0 <= k < n && Relevant(log[k]) && log[k].timestamp - t > cfg.staleTimeout
  }

  /** After `n` frames an earlier alert `j` of the pair, or a later one, is remembered, or a sweep found it old. */
  ghost predicate RemembersAlert(cfg: Config, log: seq<ParsedFrame>, n: nat, ssid: string, x: Mac, y: Mac, j: int)
    requires n <= |log|
  {
    AlertAt(cfg, log, ssid, x, y, j) && j < n ==>
      var alerted, key := Run(cfg, log[..n]).alerted, AlertKey(ssid, x, y);
      (key in alerted && log[j].timestamp <= alerted[key]) || SweptAfter(cfg, log, n, log[j].timestamp)
  }

  /** And whatever it remembers of the pair is the time of one of its alerts. */
  ghost predicate RemembersOnlyAlerts(cfg: Config, log: seq<ParsedFrame>, n: nat, ssid: string, x: Mac, y: Mac)
    requires n <= |log|
  {
    var alerted, key := Run(cfg, log[..n]).alerted, AlertKey(ssid, x, y);
    key in alerted ==> exists j :: AlertAt(cfg, log, ssid, x, y, j) && j < n && log[j].timestamp == alerted[key]
  }

  /** What one frame does to the alert times. */
  lemma StepAlerted(cfg: Config, s: State, f: ParsedFrame, ssid: string, x: Mac, y: Mac)
    ensures var s', key := Step(cfg, s, f), AlertKey(ssid, x, y);
      var e := Emitted(cfg, s, f);
      if e.Some? && e.value.ssid == ssid && SamePair(e.value.legitimate, e.value.candidate, x, y)
      then Relevant(f) && key in s'.alerted && s'.alerted[key] == f.timestamp
      else (key in s'.alerted ==> key in s.alerted && s'.alerted[key] == s.alerted[key])
           && (key in s.alerted && key !in s'.alerted ==>
                 Relevant(f) && f.timestamp - s.alerted[key] > cfg.staleTimeout)
  {
    hide AlertKey, Upsert, Suspect, Active, Candidate, SamePair;
    var e := Emitted(cfg, s, f);
    if e.Some? {
      assert e.value.ssid == f.ssid;
      AlertKeyIff(f.ssid, e.value.legitimate, e.value.candidate, ssid, x, y);
    }
  }

  lemma SweptAfterNext(cfg: Config, log: seq<ParsedFrame>, n: nat, t: Time)
    requires n < |log| && SweptAfter(cfg, log, n, t)
    ensures SweptAfter(cfg, log, n + 1, t)
  {
  }

  lemma RunNext(cfg: Config, log: seq<ParsedFrame>, n: nat)
    requires n < |log|
    ensures Run(cfg, log[..n + 1]) == Step(cfg, Run(cfg, log[..n]), log[n])
  {
    assert log[..n + 1] == log[..n] + [log[n]];
    RunSnoc(cfg, log[..n], log[n]);
  }

  lemma AlertRelevant(cfg: Config, log: seq<ParsedFrame>, ssid: string, x: Mac, y: Mac, k: int)
    requires AlertAt(cfg, log, ssid, x, y, k)
    ensures 0 <= k < |log| && Relevant(log[k])
  {
  }

  lemma AlertNext(cfg: Config, log: seq<ParsedFrame>, n: nat, ssid: string, x: Mac, y: Mac, j: int)
    requires n < |log| && Ordered(log) && RemembersAlert(cfg, log, n, ssid, x, y, j)
    ensures RemembersAlert(cfg, log, n + 1, ssid, x, y, j)
  {
    hide Step, AlertKey, Emitted, Run, SamePair;
    RunNext(cfg, log, n);
    StepAlerted(cfg, Run(cfg, log[..n]), log[n], ssid, x, y);
    if AlertAt(cfg, log, ssid, x, y, j) {
      AlertRelevant(cfg, log, ssid, x, y, j);
      if j < n && SweptAfter(cfg, log, n, log[j].timestamp) {
        SweptAfterNext(cfg, log, n, log[j].timestamp);
      }
    }
  }

  lemma OnlyAlertsNext(cfg: Config, log: seq<ParsedFrame>, n: nat, ssid: string, x: Mac, y: Mac)
    requires n < |log| && RemembersOnlyAlerts(cfg, log, n, ssid, x, y)
    ensures RemembersOnlyAlerts(cfg, log, n + 1, ssid, x, y)
  {
    hide Step, AlertKey, Emitted, Run, SamePair;
    RunNext(cfg, log, n);
    StepAlerted(cfg, Run(cfg, log[..n]), log[n], ssid, x, y);
    if AlertAt(cfg, log, ssid, x, y, n) {
      assert log[n].timestamp == Run(cfg, log[..n + 1]).alerted[AlertKey(ssid, x, y)];
    }
  }

  lemma NothingAlerted(cfg: Config, log: seq<ParsedFrame>, ssid: string, x: Mac, y: Mac, j: int)
    ensures RemembersAlert(cfg, log, 0, ssid, x, y, j) && RemembersOnlyAlerts(cfg, log, 0, ssid, x, y)
  {
    hide AlertKey;
  }

  lemma {:induction false} RunRemembersAlert(
      cfg: Config, log: seq<ParsedFrame>, n: nat, ssid: string, x: Mac, y: Mac, j: int)
    requires n <= |log| && Ordered(log)
    ensures RemembersAlert(cfg, log, n, ssid, x, y, j)
  {
    hide RemembersAlert, Ordered;
    if n > 0 {
      RunRemembersAlert(cfg, log, n - 1, ssid, x, y, j);
      AlertNext(cfg, log, n - 1, ssid, x, y, j);
    } else {
      NothingAlerted(cfg, log, ssid, x, y, j);
    }
  }

  lemma {:induction false} RunRemembersOnlyAlerts(
      cfg: Config, log: seq<ParsedFrame>, n: nat, ssid: string, x: Mac, y: Mac)
    requires n <= |log|
    ensures RemembersOnlyAlerts(cfg, log, n, ssid, x, y)
  {
    hide RemembersOnlyAlerts;
    if n > 0 {
      RunRemembersOnlyAlerts(cfg, log, n - 1, ssid, x, y);
      OnlyAlertsNext(cfg, log, n - 1, ssid, x, y);
    } else {
      NothingAlerted(cfg, log, ssid, x, y, 0);
    }
  }

  lemma CandidateIs(cfg: Config, t: State, f: ParsedFrame)
    requires Relevant(f) && Suspect(cfg, t, f).Some?
    ensures Candidate(t, f).Some? && Candidate(t, f).value.addr == f.bssid.value
  {
  }

  lemma CandidateHas(t: State, f: ParsedFrame)
    requires Relevant(f) && Candidate(t, f).Some?
    ensures Candidate(t, f).value.addr == f.bssid.value
  {
  }

  lemma NotedAlerted(cfg: Config, s: State, f: ParsedFrame, key: string)
    requires Relevant(f)
    ensures var t := Noted(cfg, s, f);
      && (key in t.alerted ==> key in s.alerted && t.alerted[key] == s.alerted[key])
      && (key in s.alerted && key !in t.alerted ==> f.timestamp - s.alerted[key] > cfg.staleTimeout)
  {
    hide Upsert, Active;
  }

  /** The access point that the `n`-th frame's comparison calls an alert against, if it calls for one. */
  ghost function SuspectAt(cfg: Config, log: seq<ParsedFrame>, n: nat): Option<Mac>
    requires n < |log|
  {
    var f := log[n];
    if !Relevant(f) then None
    else match Suspect(cfg, Noted(cfg, Run(cfg, log[..n]), f), f)
      case None => None
      case Some(r) => Some(r.addr)
  }

  /** Every earlier alert for the SSID and the unordered pair is at least the timeout before frame `n`. */
  ghost predicate LongSilent(cfg: Config, log: seq<ParsedFrame>, ssid: string, x: Mac, y: Mac, n: nat)
    requires n < |log|
  {
    forall j :: AlertAt(cfg, log, ssid, x, y, j) && j < n ==> log[n].timestamp - log[j].timestamp >= cfg.staleTimeout
  }

  /** A comparison that calls for an alert raises one unless the rule remembers a recent one, and names the pair. */
  lemma EmittedIff(cfg: Config, log: seq<ParsedFrame>, n: nat)
    requires n < |log|
    ensures var s, f := Run(cfg, log[..n]), log[n];
      var e, other := Emitted(cfg, s, f), SuspectAt(cfg, log, n);
      && (e.Some? <==>
            other.Some?
            && !Suppressed(cfg, Noted(cfg, s, f), AlertKey(f.ssid, other.value, f.bssid.value), f.timestamp))
      && (e.Some? ==> e.value.ssid == f.ssid && e.value.legitimate == other.value && e.value.candidate == f.bssid.value)
  {
    hide AlertKey, Run, Noted, Suspect, Candidate;
    if SuspectAt(cfg, log, n).Some? {
      CandidateIs(cfg, Noted(cfg, Run(cfg, log[..n]), log[n]), log[n]);
    }
  }

  lemma NotedAt(cfg: Config, log: seq<ParsedFrame>, n: nat)
    requires n < |log| && Relevant(log[n])
    ensures var f, t := log[n], Noted(cfg, Run(cfg, log[..n]), log[n]);
      && RecordsOf(t, f.ssid) == RecordsOf(Run(cfg, log[..n + 1]), f.ssid)
      && t.startedAt == StartTime(log[..n + 1])
  {
    hide Run, Noted, Step, RecordsOf, StartTime, Relevant;
    assert log[..n + 1] == log[..n] + [log[n]];
    NotedRecords(cfg, log[..n], log[n]);
    StepStarts(cfg, Run(cfg, log[..n]), log[n]);
    RunNext(cfg, log, n);
    StartedAtIs(cfg, log[..n + 1]);
  }

  lemma CandidateFromHistory(t: State, f: ParsedFrame, m: Mac)
    requires Relevant(f) && f.bssid.value == m
    ensures Candidate(t, f) == Held(RecordsOf(t, f.ssid), m)
  {
  }

  lemma SummaryCounts(m: Mac, h: seq<ParsedFrame>)
    ensures Summary(m, h).Some? <==> h != []
    ensures h != [] ==> Summary(m, h).value.beaconCount == |h|
  {
  }

  lemma EarliestAnnounced(cfg: Config, log: seq<ParsedFrame>, ssid: string, me: Mac, other: Mac)
    requires EarliestOther(cfg, log, ssid, me, other)
    ensures other != me && Since(cfg, log, ssid, other) != []
  {
  }

  /** For any timestamps the comparison is decided by the history alone. */
  lemma SuspectFromHistory(cfg: Config, log: seq<ParsedFrame>, n: nat, other: Mac)
    requires n < |log|
    ensures SuspectAt(cfg, log, n) == Some(other) <==> CallsFor(cfg, log, n, other)
  {
    hide Run, Noted, RecordsOf, FirstObserved, Since, Summary, StartTime, EarliestOther, Score, Candidate, Held;
    if Relevant(log[n]) {
      var f, seen := log[n], log[..n + 1];
      var me := f.bssid.value;
      var t := Noted(cfg, Run(cfg, log[..n]), f);
      var first := FirstObserved(RecordsOf(t, f.ssid), me);
      NotedAt(cfg, log, n);
      CandidateFromHistory(t, f, me);
      HeldFirst(cfg, seen, f.ssid, me);
      FirstObservedIs(cfg, seen, f.ssid, me);
      SummaryCounts(me, Since(cfg, seen, f.ssid, me));
      if first.Some? {
        SummaryCounts(first.value.addr, Since(cfg, seen, f.ssid, first.value.addr));
        if EarliestOther(cfg, seen, f.ssid, me, other) {
          EarliestUnique(cfg, seen, f.ssid, me, other, first.value.addr);
        }
      } else if EarliestOther(cfg, seen, f.ssid, me, other) {
        EarliestAnnounced(cfg, seen, f.ssid, me, other);
      }
    }
  }

  /** The rule's memory of the pair suppresses exactly while an alert for it is younger than the timeout. */
  lemma SuppressedIff(cfg: Config, log: seq<ParsedFrame>, n: nat, x: Mac, y: Mac)
    requires n < |log| && Ordered(log) && Relevant(log[n])
    ensures var f := log[n];
      var remembered := Suppressed(cfg, Noted(cfg, Run(cfg, log[..n]), f), AlertKey(f.ssid, x, y), f.timestamp);
      remembered <==> !LongSilent(cfg, log, f.ssid, x, y, n)
  {
    hide AlertKey, Run, Noted, AlertAt, Relevant;
    var f, s := log[n], Run(cfg, log[..n]);
    var key := AlertKey(f.ssid, x, y);
    NotedAlerted(cfg, s, f, key);
    if Suppressed(cfg, Noted(cfg, s, f), key, f.timestamp) {
      RunRemembersOnlyAlerts(cfg, log, n, f.ssid, x, y);
    } else {
      forall j | AlertAt(cfg, log, f.ssid, x, y, j) && j < n
        ensures 0 <= j && f.timestamp - log[j].timestamp >= cfg.staleTimeout {
        AlertRelevant(cfg, log, f.ssid, x, y, j);
        RunRemembersAlert(cfg, log, n, f.ssid, x, y, j);
      }
    }
  }

  /**
   * Alert spacing over whole runs: a frame raises an alert exactly when its comparison calls for one and
   * every earlier alert for the same SSID and the same unordered pair is at least the timeout ago. No
   * sweep changes an answer.
   */
  lemma AlertsIffSpaced(cfg: Config, log: seq<ParsedFrame>, n: nat)
    requires n < |log| && Ordered(log)
    ensures var f, other := log[n], SuspectAt(cfg, log, n);
      Emitted(cfg, Run(cfg, log[..n]), f).Some? <==>
        other.Some? && LongSilent(cfg, log, f.ssid, other.value, f.bssid.value, n)
  {
    hide AlertKey, Run, Noted, Suspect, LongSilent, Suppressed, Emitted;
    EmittedIff(cfg, log, n);
    if SuspectAt(cfg, log, n).Some? {
      SuppressedIff(cfg, log, n, SuspectAt(cfg, log, n).value, log[n].bssid.value);
    }
  }

  /** The `n`-th frame calls for an alert, and its pair has long been silent. */
  ghost predicate Alerts(cfg: Config, log: seq<ParsedFrame>, n: nat)
    requires n < |log|
  {
    exists other :: CallsFor(cfg, log, n, other)
                 && LongSilent(cfg, log, log[n].ssid, other, log[n].bssid.value, n)
  }

  /**
   * The rule on the history alone: a frame raises an alert exactly when it calls for one against some access
   * point and every earlier alert for the SSID and the unordered pair is at least the timeout ago.
   */
  lemma AlertsFromHistory(cfg: Config, log: seq<ParsedFrame>, n: nat)
    requires n < |log| && Ordered(log)
    ensures Emitted(cfg, Run(cfg, log[..n]), log[n]).Some? <==> Alerts(cfg, log, n)
  {
    hide Run, SuspectAt, CallsFor, LongSilent, Emitted;
    AlertsIffSpaced(cfg, log, n);
    forall other: Mac ensures SuspectAt(cfg, log, n) == Some(other) <==> CallsFor(cfg, log, n, other) {
      SuspectFromHistory(cfg, log, n, other);
    }
  }

  lemma LastAlerts(cfg: Config, log: seq<ParsedFrame>, f: ParsedFrame)
    ensures Ordered(log + [f]) ==> (Emitted(cfg, Run(cfg, log), f).Some? <==> Alerts(cfg, log + [f], |log|))
  {
    hide Run, Ordered, Alerts, Emitted;
    if Ordered(log + [f]) {
      assert (log + [f])[..|log|] == log;
      AlertsFromHistory(cfg, log + [f], |log|);
    }
  }

  /** Two alerts for the same SSID and the same pair, whichever was the candidate, are at least the timeout apart. */
  lemma AlertsSpaced(cfg: Config, log: seq<ParsedFrame>, ssid: string, x: Mac, y: Mac, j: nat, n: nat)
    requires Ordered(log) && AlertAt(cfg, log, ssid, x, y, j) && AlertAt(cfg, log, ssid, x, y, n) && j < n
    ensures log[n].timestamp - log[j].timestamp >= cfg.staleTimeout
  {
    hide Run, Noted, Suspect, Emitted;
    AlertsIffSpaced(cfg, log, n);
    EmittedIff(cfg, log, n);
    assert AlertAt(cfg, log, log[n].ssid, SuspectAt(cfg, log, n).value, log[n].bssid.value, j);
  }

  // ---- The rule as the object that updates its records in place ----

  class EvilTwinAPRecord {
    const addr: Mac
    var channel: nat
    var infoElements: InfoElements
    var capability: nat
    var beaconInterval: nat
    var firstSeen: Time
    var lastSeen: Time
    var rssi: int
    var beaconCount: nat

    ghost function View(): Record
      reads this
    {
      Record(addr, channel, infoElements, capability, beaconInterval, firstSeen, lastSeen, rssi, beaconCount)
    }

    constructor (f: ParsedFrame)
      requires f.bssid.Some?
      ensures View() == NewRecord(f)
    {
      addr, channel, infoElements := f.bssid.value, f.channel, f.infoElements;
      capability, beaconInterval := f.capability, f.beaconInterval;
      firstSeen, lastSeen, rssi, beaconCount := f.timestamp, f.timestamp, f.rssi, 1;
    }

    method Update(f: ParsedFrame)
      modifies this
      ensures View() == Updated(old(View()), f)
    {
      lastSeen, rssi, beaconCount := f.timestamp, f.rssi, beaconCount + 1;
      if f.channel != 0 {
        channel := f.channel;
      }
      if f.infoElements.Some? {
        infoElements := f.infoElements;
      }
      if f.capability != 0 {
        capability := f.capability;
      }
      if f.beaconInterval != 0 {
        beaconInterval := f.beaconInterval;
      }
    }
  }

  ghost predicate Unique(rs: seq<EvilTwinAPRecord>) {
    forall i, j :: 0 <= i < j < |rs| ==> rs[i] != rs[j]
  }

  ghost predicate Apart(rs: seq<EvilTwinAPRecord>, ts: seq<EvilTwinAPRecord>) {
    forall i, j :: 0 <= i < |rs| && 0 <= j < |ts| ==> rs[i] != ts[j]
  }

  lemma ApartSymmetric()
    ensures forall rs: seq<EvilTwinAPRecord>, ts: seq<EvilTwinAPRecord> :: Apart(rs, ts) ==> Apart(ts, rs)
  {
  }

  ghost function Views(rs: seq<EvilTwinAPRecord>): (vs: seq<Record>)
    reads rs
    ensures |vs| == |rs| && forall i :: 0 <= i < |rs| ==> vs[i] == rs[i].View()
  {
    if rs == [] then [] else Views(rs[..|rs| - 1]) + [rs[|rs| - 1].View()]
  }

  lemma ViewsAre(rs: seq<EvilTwinAPRecord>, vs: seq<Record>)
    requires |vs| == |rs| && forall i :: 0 <= i < |rs| ==> vs[i] == rs[i].View()
    ensures Views(rs) == vs
  {
  }

  method Position(records: seq<EvilTwinAPRecord>, m: Mac) returns (i: nat)
    ensures i == Find(Views(records), m)
  {
    i := 0;
    while i < |records| && records[i].addr != m
      invariant i <= |records| && forall j :: 0 <= j < i ==> records[j].addr != m
      decreases |records| - i
    {
      i := i + 1;
    }
    assert forall j :: 0 <= j < |records| ==> Views(records)[j].addr == records[j].addr;
  }

  /** Adds one mismatch and its weight when the two access points differ in it. */
  method Add(score: nat, mismatches: seq<Mismatch>, differs: bool, name: Mismatch, weight: nat)
    returns (sum: nat, more: seq<Mismatch>)
    requires score == Total(mismatches) && weight == WeightOf(name)
    ensures more == Noting(mismatches, differs, name) && sum == Total(more)
  {
    hide WeightOf;
    sum, more := score, mismatches;
    if differs {
      TotalSnoc(mismatches, name);
      sum, more := score + weight, mismatches + [name];
    }
  }

  /** `evilTwinScore`, adding up the mismatches one by one. */
  method ScoreOf(known: EvilTwinAPRecord, candidate: EvilTwinAPRecord) returns (score: nat, mismatches: seq<Mismatch>)
    ensures score == Score(known.View(), candidate.View()) && mismatches == Mismatches(known.View(), candidate.View())
    ensures Compares(known.View(), candidate.View(), score, mismatches)
  {
    hide SameIE, Noting, Total, Compares;
    ScoreIs(known.View(), candidate.View());
    NothingTotals();
    score, mismatches := Add(0, [], true, BSSID, 50);
    NotingOne();
    var channels := known.channel != 0 && candidate.channel != 0 && known.channel != candidate.channel;
    score, mismatches := Add(score, mismatches, channels, Channel, 30);
    score, mismatches := Add(score, mismatches, !SameIE(known.infoElements, candidate.infoElements, 48), RSN, 40);
    score, mismatches := Add(score, mismatches, !SameIE(known.infoElements, candidate.infoElements, 221), Vendor, 20);
    score, mismatches := Add(score, mismatches, known.capability != candidate.capability, Capability, 20);
    score, mismatches :=
      Add(score, mismatches, !SameIE(known.infoElements, candidate.infoElements, 45), HTCapabilities, 10);
    score, mismatches :=
      Add(score, mismatches, !SameIE(known.infoElements, candidate.infoElements, 191), VHTCapabilities, 10);
    score, mismatches :=
      Add(score, mismatches, !SameIE(known.infoElements, candidate.infoElements, 127), ExtendedCapabilities, 5);
  }

  function WithList(aps: map<string, seq<Record>>, ssid: string, rs: seq<Record>): map<string, seq<Record>> {
    if rs == [] then aps - {ssid} else aps[ssid := rs]
  }

  /** The map in the middle of a sweep: `todo` still holds its old lists. */
  ghost function PartlyActive(cfg: Config, aps: map<string, seq<Record>>, todo: set<string>, now: Time)
    : map<string, seq<Record>>
  {
    map ssid | ssid in aps && (ssid in todo || Active(cfg, aps[ssid], now) != []) ::
      if ssid in todo then aps[ssid] else Active(cfg, aps[ssid], now)
  }

  lemma PartlyActiveNext(cfg: Config, aps: map<string, seq<Record>>, todo: set<string>, ssid: string, now: Time)
    requires ssid in todo && todo <= aps.Keys
    ensures ssid in PartlyActive(cfg, aps, todo, now) && PartlyActive(cfg, aps, todo, now)[ssid] == aps[ssid]
    ensures WithList(PartlyActive(cfg, aps, todo, now), ssid, Active(cfg, aps[ssid], now))
         == PartlyActive(cfg, aps, todo - {ssid}, now)
  {
    hide Active;
  }

  lemma PartlyActiveNone(cfg: Config, aps: map<string, seq<Record>>, now: Time)
    ensures PartlyActive(cfg, aps, {}, now) == ActiveLists(cfg, aps, now)
  {
    hide Active;
  }

  /** Without repetition, and from among the first `n` records. */
  ghost predicate Picked(active: seq<EvilTwinAPRecord>, records: seq<EvilTwinAPRecord>, n: nat) {
    && n <= |records| && Unique(active)
    && forall i :: 0 <= i < |active| ==> active[i] in records[..n]
  }

  lemma PickedNext(active: seq<EvilTwinAPRecord>, records: seq<EvilTwinAPRecord>, n: nat)
    requires n < |records| && Unique(records) && Picked(active, records, n)
    ensures Picked(active, records, n + 1) && Picked(active + [records[n]], records, n + 1)
  {
    assert records[..n + 1] == records[..n] + [records[n]];
    assert records[n] !in records[..n];
  }

  lemma ActiveSnoc(cfg: Config, rs: seq<Record>, r: Record, now: Time)
    ensures Active(cfg, rs + [r], now)
         == if Recent(cfg, r, now) then Active(cfg, rs, now) + [r] else Active(cfg, rs, now)
  {
    assert (rs + [r])[..|rs|] == rs;
  }

  lemma CompactNone(cfg: Config, records: seq<EvilTwinAPRecord>, now: Time)
    ensures Picked([], records, 0) && Views([]) == Active(cfg, Views(records[..0]), now)
  {
    assert records[..0] == [];
  }

  lemma CompactNext(cfg: Config, records: seq<EvilTwinAPRecord>, active: seq<EvilTwinAPRecord>, i: nat, now: Time)
    requires i < |records| && Unique(records) && Picked(active, records, i)
    requires Views(active) == Active(cfg, Views(records[..i]), now)
    ensures var next := if now - records[i].lastSeen <= cfg.staleTimeout then active + [records[i]] else active;
      Picked(next, records, i + 1) && Views(next) == Active(cfg, Views(records[..i + 1]), now)
  {
    hide Active, Views, Picked;
    ActiveSnoc(cfg, Views(records[..i]), records[i].View(), now);
    ViewsAre(records[..i + 1], Views(records[..i]) + [records[i].View()]);
    ViewsAre(active + [records[i]], Views(active) + [records[i].View()]);
    PickedNext(active, records, i);
  }

  class EvilTwinRule {
    const cfg: Config
    var startedAt: Time
    var apsBySSID: map<string, seq<EvilTwinAPRecord>>
    var alerted: map<string, Time>
    var callCount: nat
    ghost var repr: set<EvilTwinAPRecord>

    /** No record is listed twice, and every listed record is in the footprint. */
    ghost predicate Separate()
      reads this`apsBySSID, this`repr
    {
      && (forall s, i :: s in apsBySSID && 0 <= i < |apsBySSID[s]| ==> apsBySSID[s][i] in repr)
      && (forall s :: s in apsBySSID ==> Unique(apsBySSID[s]))
      && (forall s, t :: s in apsBySSID && t in apsBySSID && s != t ==> Apart(apsBySSID[s], apsBySSID[t]))
    }

    ghost function Aps(): map<string, seq<Record>>
      requires Separate()
      reads this`apsBySSID, this`repr, repr
    {
      map ssid | ssid in apsBySSID :: Views(apsBySSID[ssid])
    }

    ghost function View(): State
      requires Separate()
      reads this, repr
    {
      State(startedAt, Aps(), alerted, callCount)
    }

    /** The rule is in the state that the frames of `log` lead to. */
    ghost predicate Follows(log: seq<ParsedFrame>)
      reads this, repr
    {
      Separate() && View() == Run(cfg, log)
    }

    constructor (cfg: Config)
      ensures Follows([]) && this.cfg == cfg
    {
      this.cfg := cfg;
      startedAt, apsBySSID, alerted, callCount, repr := 0, map[], map[], 0, {};
    }

    lemma ApsAre(aps: map<string, seq<Record>>)
      requires Separate() && apsBySSID.Keys == aps.Keys
      requires forall ssid :: ssid in apsBySSID ==> Views(apsBySSID[ssid]) == aps[ssid]
      ensures Aps() == aps
    {
    }

    lemma ListIs(ssid: string)
      requires Separate()
      ensures ssid in Aps() <==> ssid in apsBySSID
      ensures ssid in apsBySSID ==> Aps()[ssid] == Views(apsBySSID[ssid]) && Unique(apsBySSID[ssid])
      ensures RecordsOf(View(), ssid) == Views(if ssid in apsBySSID then apsBySSID[ssid] else [])
    {
    }

    lemma ListsAre()
      requires Separate()
      ensures Aps().Keys == apsBySSID.Keys
      ensures forall ssid :: ssid in apsBySSID ==> Views(apsBySSID[ssid]) == Aps()[ssid]
    {
    }

    lemma AllToDo(now: Time)
      requires Separate()
      ensures Aps().Keys == apsBySSID.Keys && PartlyActive(cfg, Aps(), apsBySSID.Keys, now) == Aps()
    {
      hide Active, Views;
    }

    /** Compacts a list to its active records, in their order. */
    method Compact(records: seq<EvilTwinAPRecord>, now: Time) returns (active: seq<EvilTwinAPRecord>)
      requires Unique(records)
      ensures Picked(active, records, |records|)
      ensures Views(active) == Active(cfg, Views(records), now)
    {
      hide Active, Views, Picked, Unique;
      CompactNone(cfg, records, now);
      active := [];
      for i := 0 to |records|
        invariant Picked(active, records, i)
        invariant Views(active) == Active(cfg, Views(records[..i]), now)
      {
        CompactNext(cfg, records, active, i, now);
        if now - records[i].lastSeen <= cfg.staleTimeout {
          active := active + [records[i]];
        }
      }
      assert records[..|records|] == records;
    }

    /** The list could be stored under `ssid` without listing any record twice. */
    ghost predicate Fits(ssid: string, records: seq<EvilTwinAPRecord>)
      reads this
    {
      && Unique(records)
      && (forall i :: 0 <= i < |records| ==> records[i] in repr)
      && (forall s :: s in apsBySSID && s != ssid ==> Apart(records, apsBySSID[s]))
    }

    /** A selection from a list may take the list's place. */
    lemma PickedStays(active: seq<EvilTwinAPRecord>, records: seq<EvilTwinAPRecord>, ssid: string)
      requires Separate() && ssid in apsBySSID && apsBySSID[ssid] == records && Picked(active, records, |records|)
      ensures Fits(ssid, active)
    {
      forall s | s in apsBySSID && s != ssid ensures Apart(active, apsBySSID[s]) {
        assert Apart(records, apsBySSID[s]);
      }
    }

    method SetList(ssid: string, records: seq<EvilTwinAPRecord>)
      requires Separate() && Fits(ssid, records)
      modifies this`apsBySSID
      ensures Separate() && apsBySSID == old(apsBySSID)[ssid := records]
      ensures Aps() == old(Aps())[ssid := Views(records)]
    {
      hide Unique, Views;
      ghost var before := Aps();
      apsBySSID := apsBySSID[ssid := records];
      ApartSymmetric();
      ApsAre(before[ssid := Views(records)]);
    }

    method RemoveList(ssid: string)
      requires Separate()
      modifies this`apsBySSID
      ensures Separate() && Aps() == old(Aps()) - {ssid}
    {
      hide Unique, Apart, Views;
      ghost var before := Aps();
      apsBySSID := apsBySSID - {ssid};
      ApsAre(before - {ssid});
    }

    method CompactEntry(ssid: string, now: Time)
      requires Separate() && ssid in apsBySSID
      modifies this`apsBySSID
      ensures Separate()
      ensures Aps() == WithList(old(Aps()), ssid, Active(cfg, old(Aps())[ssid], now))
    {
      hide Active, Aps, Separate, Views, Unique, Picked;
      var records := apsBySSID[ssid];
      ListIs(ssid);
      var active := Compact(records, now);
      if |active| == 0 {
        RemoveList(ssid);
      } else {
        PickedStays(active, records, ssid);
        SetList(ssid, active);
      }
    }

    method CompactAll(now: Time)
      requires Separate()
      modifies this`apsBySSID
      ensures Separate() && repr == old(repr)
      ensures Aps() == ActiveLists(cfg, old(Aps()), now)
    {
      hide Active, Separate, Aps, PartlyActive, ActiveLists;
      ghost var before := Aps();
      var todo := apsBySSID.Keys;
      AllToDo(now);
      while todo != {}
        invariant Separate()
        invariant todo <= before.Keys && Aps() == PartlyActive(cfg, before, todo, now)
        decreases |todo|
      {
        var ssid :| ssid in todo;
        PartlyActiveNext(cfg, before, todo, ssid, now);
        ListIs(ssid);
        CompactEntry(ssid, now);
        todo := todo - {ssid};
      }
      PartlyActiveNone(cfg, before, now);
    }

    method CleanupStale(now: Time)
      requires Separate()
      modifies this`apsBySSID, this`alerted
      ensures Separate() && repr == old(repr)
      ensures Aps() == ActiveLists(cfg, old(Aps()), now)
      ensures alerted == RecentAlerts(cfg, old(alerted), now)
      ensures forall k :: k in alerted <==> k in old(alerted) && now - old(alerted)[k] <= cfg.staleTimeout
    {
      hide Active, Aps, Separate, ActiveLists;
      CompactAll(now);
      alerted := Younger(alerted, now, cfg.staleTimeout);
    }

    method Enter(now: Time)
      requires Separate()
      modifies this
      ensures Separate() && repr == old(repr)
      ensures View() == Entered(cfg, old(View()), now)
    {
      hide Separate, Aps, ActiveLists, RecentAlerts;
      if startedAt == 0 {
        startedAt := now;
      }
      callCount := callCount + 1;
      if callCount % CLEANUP_INTERVAL == 0 {
        CleanupStale(now);
      }
    }

    /** What a listed record shares with nothing else in the lists. */
    lemma Listed(ssid: string, i: nat)
      requires Separate() && ssid in apsBySSID && i < |apsBySSID[ssid]|
      ensures apsBySSID[ssid][i] in repr
      ensures forall s :: s in apsBySSID && s != ssid ==> apsBySSID[ssid][i] !in apsBySSID[s]
      ensures forall j :: 0 <= j < |apsBySSID[ssid]| && j != i ==> apsBySSID[ssid][j] != apsBySSID[ssid][i]
    {
      forall s | s in apsBySSID && s != ssid ensures apsBySSID[ssid][i] !in apsBySSID[s] {
        assert Apart(apsBySSID[ssid], apsBySSID[s]);
      }
    }

    method UpdateRecord(ssid: string, i: nat, f: ParsedFrame)
      requires Separate() && ssid in apsBySSID && i < |apsBySSID[ssid]|
      modifies apsBySSID[ssid][i]
      ensures unchanged(this)
      ensures apsBySSID[ssid][i].View() == Updated(old(Aps())[ssid][i], f)
      ensures Aps() == old(Aps())[ssid := old(Aps())[ssid][i := Updated(old(Aps())[ssid][i], f)]]
    {
      hide Updated, Separate, Unique, Apart, Aps, Views;
      ghost var before := Aps();
      ListsAre();
      var records := apsBySSID[ssid];
      Listed(ssid, i);
      var record := records[i];
      record.Update(f);
      ViewsAre(records, before[ssid][i := Updated(before[ssid][i], f)]);
      ApsAre(before[ssid := before[ssid][i := Updated(before[ssid][i], f)]]);
    }

    ghost predicate Unlisted(candidate: EvilTwinAPRecord)
      reads this`apsBySSID
    {
      forall s, i :: s in apsBySSID && 0 <= i < |apsBySSID[s]| ==> apsBySSID[s][i] != candidate
    }

    /** Counts a new record among the rule's own. */
    ghost method Adopt(candidate: EvilTwinAPRecord)
      requires Separate() && candidate !in repr
      modifies this`repr
      ensures repr == old(repr) + {candidate} && Separate() && Aps() == old(Aps()) && Unlisted(candidate)
    {
      hide Unique, Apart, Views;
      ghost var before := Aps();
      repr := repr + {candidate};
      ApsAre(before);
    }

    /** A record that is not listed anywhere may be appended to any list. */
    lemma NewFits(ssid: string, records: seq<EvilTwinAPRecord>, candidate: EvilTwinAPRecord)
      requires Separate() && candidate in repr
      requires records == if ssid in apsBySSID then apsBySSID[ssid] else []
      requires Unlisted(candidate)
      ensures Fits(ssid, records + [candidate])
    {
      var more := records + [candidate];
      assert |records| > 0 ==> ssid in apsBySSID;
      forall s | s in apsBySSID && s != ssid ensures Apart(more, apsBySSID[s]) {
        assert |records| > 0 ==> Apart(records, apsBySSID[s]);
      }
    }

    method Append(records: seq<EvilTwinAPRecord>, f: ParsedFrame) returns (candidate: EvilTwinAPRecord)
      requires Separate() && f.bssid.Some?
      requires records == if f.ssid in apsBySSID then apsBySSID[f.ssid] else []
      modifies this`apsBySSID, this`repr
      ensures Separate() && f.ssid in apsBySSID
      ensures fresh(repr - old(repr))
      ensures candidate.View() == NewRecord(f)
      ensures Aps() == old(Aps())[f.ssid := Views(records) + [NewRecord(f)]]
    {
      hide NewRecord, Separate, Aps, Views, Fits;
      ListIs(f.ssid);
      candidate := new EvilTwinAPRecord(f);
      Adopt(candidate);
      ViewsAre(records + [candidate], Views(records) + [NewRecord(f)]);
      NewFits(f.ssid, records, candidate);
      SetList(f.ssid, records + [candidate]);
    }

    /** From lists `before`, the frame has been noted in `candidate`, the announcing BSSID's record. */
    ghost predicate NotedIn(before: map<string, seq<Record>>, f: ParsedFrame, candidate: EvilTwinAPRecord)
      requires Separate() && Relevant(f)
      reads this, repr, candidate
    {
      && f.ssid in apsBySSID
      && Aps() == before[f.ssid := Upsert(if f.ssid in before then before[f.ssid] else [], f)]
      && Candidate(View(), f) == Some(candidate.View())
    }

    lemma ListsHold(ssid: string)
      requires Separate()
      ensures Views(if ssid in apsBySSID then apsBySSID[ssid] else []) == if ssid in Aps() then Aps()[ssid] else []
    {
    }

    method NoteKnown(records: seq<EvilTwinAPRecord>, i: nat, f: ParsedFrame)
      requires Separate() && Relevant(f) && f.ssid in apsBySSID && apsBySSID[f.ssid] == records
      requires i < |records| && i == Find(Views(records), f.bssid.value)
      modifies records[i]
      ensures unchanged(this) && NotedIn(old(Aps()), f, records[i])
    {
      hide Separate, Aps, Views, Updated, NewRecord, Candidate, Upsert;
      ListIs(f.ssid);
      ListsHold(f.ssid);
      UpsertIs(Views(records), f);
      ghost var vs := Views(records);
      UpdateRecord(f.ssid, i, f);
      CandidateNoted(View(), f, vs);
    }

    method NoteNew(records: seq<EvilTwinAPRecord>, f: ParsedFrame) returns (candidate: EvilTwinAPRecord)
      requires Separate() && Relevant(f)
      requires records == if f.ssid in apsBySSID then apsBySSID[f.ssid] else []
      requires Find(Views(records), f.bssid.value) == |records|
      modifies this`apsBySSID, this`repr
      ensures Separate() && fresh(repr - old(repr)) && NotedIn(old(Aps()), f, candidate)
    {
      hide Separate, Aps, Views, Updated, NewRecord, Candidate, Upsert;
      ListsHold(f.ssid);
      UpsertIs(Views(records), f);
      ghost var vs := Views(records);
      candidate := Append(records, f);
      CandidateNoted(View(), f, vs);
    }

    /** Updates the record of the announcing BSSID in place, or appends a new one. */
    method Note(f: ParsedFrame) returns (candidate: EvilTwinAPRecord)
      requires Separate() && Relevant(f)
      modifies this`apsBySSID, this`repr, repr
      ensures Separate() && fresh(repr - old(repr)) && NotedIn(old(Aps()), f, candidate)
    {
      hide Separate, Aps, Views, NotedIn;
      var records := if f.ssid in apsBySSID then apsBySSID[f.ssid] else [];
      var i := Position(records, f.bssid.value);
      if i < |records| {
        Listed(f.ssid, i);
        NoteKnown(records, i, f);
        candidate := records[i];
      } else {
        candidate := NoteNew(records, f);
      }
    }

    /** `firstObservedAP`. */
    method FirstObservedAP(records: seq<EvilTwinAPRecord>, excluded: Mac) returns (first: EvilTwinAPRecord?)
      ensures first == null <==> FirstObserved(Views(records), excluded).None?
      ensures first != null ==> first in records && FirstObserved(Views(records), excluded) == Some(first.View())
    {
      first := null;
      for i := 0 to |records|
        invariant first == null <==> FirstObserved(Views(records[..i]), excluded).None?
        invariant first != null ==>
          first in records && FirstObserved(Views(records[..i]), excluded) == Some(first.View())
      {
        assert records[..i + 1][..i] == records[..i];
        var record := records[i];
        if record.addr != excluded && (first == null || record.firstSeen < first.firstSeen) {
          first := record;
        }
      }
      assert records[..|records|] == records;
    }

    /** The access point to compare with, when the comparison calls for an alert. */
    method FindSuspect(f: ParsedFrame, records: seq<EvilTwinAPRecord>, candidate: EvilTwinAPRecord)
      returns (legitimate: EvilTwinAPRecord?, score: nat, mismatches: seq<Mismatch>)
      requires Separate() && Relevant(f) && f.ssid in apsBySSID && apsBySSID[f.ssid] == records
      requires Candidate(View(), f) == Some(candidate.View())
      ensures Suspect(cfg, View(), f) == if legitimate == null then None else Some(legitimate.View())
      ensures legitimate != null ==>
        score == Score(legitimate.View(), candidate.View())
        && mismatches == Mismatches(legitimate.View(), candidate.View())
    {
      hide FirstObserved, Score, Mismatches, Candidate, Aps, Separate, Views;
      ListIs(f.ssid);
      score, mismatches := 0, [];
      if f.timestamp - startedAt < cfg.learningPeriod || candidate.beaconCount < cfg.minBeacons {
        return null, 0, [];
      }
      legitimate := FirstObservedAP(records, f.bssid.value);
      if legitimate == null || legitimate.beaconCount < cfg.minBeacons {
        return null, 0, [];
      }
      score, mismatches := ScoreOf(legitimate, candidate);
      if score < cfg.scoreThreshold {
        legitimate := null;
      }
    }

    /** `evaluateCandidateLocked`, for the record that the frame created or updated. */
    method Evaluate(f: ParsedFrame, candidate: EvilTwinAPRecord) returns (events: seq<TwinEvent>)
      requires Separate() && Relevant(f) && f.ssid in apsBySSID
      requires Candidate(View(), f) == Some(candidate.View())
      modifies this`alerted
      ensures Separate()
      ensures events == match Verdict(cfg, old(View()), f) case None => [] case Some(e) => [e]
      ensures View() == Reported(old(View()), f, Verdict(cfg, old(View()), f))
    {
      hide Suspect, Score, Mismatches, AlertKey, Separate, Aps, Views, FirstObserved;
      ghost var t := View();
      events := [];
      var records := apsBySSID[f.ssid];
      ListIs(f.ssid);
      CandidateHas(t, f);
      var legitimate, score, mismatches := FindSuspect(f, records, candidate);
      if legitimate == null {
        return;
      }
      var alertKey := AlertKey(f.ssid, legitimate.addr, candidate.addr);
      if alertKey in alerted && f.timestamp - alerted[alertKey] < cfg.staleTimeout {
        return;
      }
      alerted := alerted[alertKey := f.timestamp];
      events := [TwinEvent(f.timestamp, Critical, f.ssid, candidate.addr, legitimate.addr, candidate.channel,
                           candidate.rssi, candidate.beaconCount, f.timestamp as int - candidate.firstSeen, score,
                           mismatches, legitimate.channel)];
    }

    /** Any frame after any run raises exactly the events of the specification. */
    method Process(frame: ParsedFrame, ghost log: seq<ParsedFrame>) returns (events: seq<TwinEvent>)
      requires Follows(log)
      modifies this, repr
      ensures Follows(log + [frame])
      ensures events == match Emitted(cfg, Run(cfg, log), frame) case None => [] case Some(e) => [e]
      ensures Ordered(log + [frame]) ==> (events != [] <==> Alerts(cfg, log + [frame], |log|))
    {
      hide Run, Entered, Upsert, Suspect, AlertKey, Separate, Aps, Ordered, Alerts;
      LastAlerts(cfg, log, frame);
      RunSnoc(cfg, log, frame);
      if (frame.frameType != Beacon && frame.frameType != ProbeResponse) || frame.ssid == "" || frame.bssid == None {
        return [];
      }
      Enter(frame.timestamp);
      var candidate := Note(frame);
      events := Evaluate(frame, candidate);
    }
  }
}
