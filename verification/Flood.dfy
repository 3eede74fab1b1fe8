/**
 * internal/detector/rule_flood.go: the sliding-window counter behind the deauthentication
 * and disassociation flood rules.
 *
 * The rule keeps, per source and BSSID, a slice of timestamps that it caps, prunes from the
 * front, clears on every event and forgets in a periodic sweep. `Step` is that bookkeeping;
 * `Pending` and `WindowFull` are the specification, which remembers every frame.
 */
module Flood {
  import opened Basics
  import opened Mac
  import opened Frames

  const CLEANUP_INTERVAL: nat := 10000

  datatype Config = Config(frameType: FrameType, severity: Severity, threshold: pos, window: nat)

  datatype Tracker = Tracker(timestamps: seq<Time>, lastSeen: Time)

  datatype State = State(tracker: map<string, Tracker>, callCount: nat)

  datatype FloodEvent = FloodEvent(
    timestamp: Time, severity: Severity, srcMAC: Address, dstMAC: Address, bssid: Address,
    channel: nat, rssi: int, frameCount: nat, duration: int,
    reasonCode: nat, threshold: nat, window: nat, trackingKey: string, broadcast: bool)

  // ---- The rule's bookkeeping, one frame at a time ----

  function FloodKey(src: Address, bssid: Address): string {
    if bssid.Some? then AddressString(src) + ":" + AddressString(bssid) else AddressString(src)
  }

  function KeyOf(frame: ParsedFrame): string { FloodKey(frame.srcMAC, frame.bssid) }

  /** The newest `n` entries. */
  function Newest(ts: seq<Time>, n: nat): seq<Time> {
    if |ts| > n then ts[|ts| - n..] else ts
  }

  /** Drops entries from the front while they are before the cutoff. */
  function DropBefore(ts: seq<Time>, cutoff: int): (r: seq<Time>)
    ensures |r| <= |ts|
  {
    if ts == [] || cutoff <= ts[0] then ts else DropBefore(ts[1..], cutoff)
  }

  predicate Stale(tr: Tracker, now: Time, window: nat) { now - tr.lastSeen > 5 * window }

  function CleanedUp(tracker: map<string, Tracker>, now: Time, window: nat): map<string, Tracker> {
    map k | k in tracker && !Stale(tracker[k], now, window) :: tracker[k]
  }

  predicate Sweeping(s: State) { (s.callCount + 1) % CLEANUP_INTERVAL == 0 }

  /** The trackers a matching frame finds: swept first on every ten-thousandth call. */
  function Swept(cfg: Config, s: State, now: Time): map<string, Tracker> {
    if Sweeping(s) then CleanedUp(s.tracker, now, cfg.window) else s.tracker
  }

  function Buffer(tracker: map<string, Tracker>, key: string): seq<Time> {
    if key in tracker then tracker[key].timestamps else []
  }

  /** The slice after the append, the memory cap and the window pruning. */
  function Windowed(cfg: Config, buffer: seq<Time>, now: Time): seq<Time> {
    DropBefore(Newest(buffer + [now], 2 * cfg.threshold), now - cfg.window)
  }

  function EventFor(cfg: Config, frame: ParsedFrame, window: seq<Time>): FloodEvent
    requires window != []
  {
    FloodEvent(frame.timestamp, cfg.severity, frame.srcMAC, frame.dstMAC, frame.bssid, frame.channel, frame.rssi,
               |window|, frame.timestamp - window[0], frame.reasonCode, cfg.threshold, cfg.window, KeyOf(frame),
               frame.dstMAC == Some(BROADCAST))
  }

  function Step(cfg: Config, s: State, frame: ParsedFrame): (State, Option<FloodEvent>) {
    if frame.frameType != cfg.frameType then (s, None)
    else
      var now, key := frame.timestamp, KeyOf(frame);
      var tracker := Swept(cfg, s, now);
      var window := Windowed(cfg, Buffer(tracker, key), now);
      if |window| < cfg.threshold then
        (State(tracker[key := Tracker(window, now)], s.callCount + 1), None)
      else
        (State(tracker[key := Tracker([], now)], s.callCount + 1), Some(EventFor(cfg, frame, window)))
  }

  /** The state after a whole run, from a fresh rule. */
  function Run(cfg: Config, log: seq<ParsedFrame>): State {
    if log == [] then State(map[], 0) else Step(cfg, Run(cfg, log[..|log| - 1]), log[|log| - 1]).0
  }

  /** What the last frame of a run emitted. */
  function Emitted(cfg: Config, log: seq<ParsedFrame>): Option<FloodEvent>
    requires log != []
  {
    Step(cfg, Run(cfg, log[..|log| - 1]), log[|log| - 1]).1
  }

  lemma RunSnoc(cfg: Config, log: seq<ParsedFrame>, f: ParsedFrame)
    ensures Step(cfg, Run(cfg, log), f) == (Run(cfg, log + [f]), Emitted(cfg, log + [f]))
  {
    hide Step;
    assert (log + [f])[..|log|] == log;
  }

  ghost function Matching(cfg: Config, log: seq<ParsedFrame>): nat {
    if log == [] then 0
    else Matching(cfg, log[..|log| - 1]) + (if log[|log| - 1].frameType == cfg.frameType then 1 else 0)
  }

  /** The sweep runs with every ten-thousandth matching frame. */
  lemma {:induction false} SweepsEvery(cfg: Config, log: seq<ParsedFrame>)
    ensures Run(cfg, log).callCount == Matching(cfg, log)
    ensures Sweeping(Run(cfg, log)) <==> (Matching(cfg, log) + 1) % 10000 == 0
  {
    hide Windowed, Swept, FloodKey, EventFor;
    if log != [] {
      SweepsEvery(cfg, log[..|log| - 1]);
    }
  }

  // ---- The specification: a filter over the full history ----

  ghost predicate SameSource(f: ParsedFrame, src: Address, bssid: Address) {
    f.srcMAC == src && f.bssid == bssid
  }

  /** All timestamps of this source's matching frames since its last event; nothing expires. */
  ghost function Pending(cfg: Config, log: seq<ParsedFrame>, src: Address, bssid: Address): seq<Time> {
    if log == [] then []
    else
      var f := log[|log| - 1];
      var before := Pending(cfg, log[..|log| - 1], src, bssid);
      if f.frameType != cfg.frameType || !SameSource(f, src, bssid) then before
      else if |From(before + [f.timestamp], f.timestamp - cfg.window)| >= cfg.threshold then []
      else before + [f.timestamp]
  }

  /** The instants counted when the last frame arrives, this one included. */
  ghost function InWindow(cfg: Config, log: seq<ParsedFrame>): seq<Time>
    requires log != []
  {
    var f := log[|log| - 1];
    From(Pending(cfg, log[..|log| - 1], f.srcMAC, f.bssid) + [f.timestamp], f.timestamp - cfg.window)
  }

  ghost predicate WindowFull(cfg: Config, log: seq<ParsedFrame>)
    requires log != []
  {
    log[|log| - 1].frameType == cfg.frameType && |InWindow(cfg, log)| >= cfg.threshold
  }

  /** Capture timestamps of matching frames never go back. */
  ghost predicate Ordered(cfg: Config, log: seq<ParsedFrame>) {
    forall i, j :: 0 <= i < j < |log| && log[i].frameType == cfg.frameType && log[j].frameType == cfg.frameType
      ==> log[i].timestamp <= log[j].timestamp
  }

  // ---- Keys ----

  lemma FloodKeyInjective(s1: Address, b1: Address, s2: Address, b2: Address)
    requires FloodKey(s1, b1) == FloodKey(s2, b2)
    ensures s1 == s2 && b1 == b2
  {
    SuffixLength(AddressString(s1), b1);
    SuffixLength(AddressString(s2), b2);
    if b1.Some? && b2.Some? {
      SuffixInjective(AddressString(s1), b1, AddressString(s2), b2);
    }
    AddressStringInjective(s1, s2);
  }

  // ---- What one call does to each buffer ----

  /** The buffer of `key` after a matching frame, given the trackers the frame finds. */
  function BufferAfter(cfg: Config, buffer: seq<Time>, mine: bool, now: Time): seq<Time> {
    if !mine then buffer
    else if |Windowed(cfg, buffer, now)| < cfg.threshold then Windowed(cfg, buffer, now)
    else []
  }

  lemma StepBuffer(cfg: Config, s: State, f: ParsedFrame, key: string)
    requires f.frameType == cfg.frameType
    ensures Buffer(Step(cfg, s, f).0.tracker, key)
         == BufferAfter(cfg, Buffer(Swept(cfg, s, f.timestamp), key), KeyOf(f) == key, f.timestamp)
    ensures Step(cfg, s, f).1.Some?
        <==> |Windowed(cfg, Buffer(Swept(cfg, s, f.timestamp), KeyOf(f)), f.timestamp)| >= cfg.threshold
  {
    hide FloodKey;
  }

  lemma StepEvent(cfg: Config, s: State, f: ParsedFrame)
    requires Step(cfg, s, f).1.Some?
    ensures var window := Windowed(cfg, Buffer(Swept(cfg, s, f.timestamp), KeyOf(f)), f.timestamp);
      window != [] && Step(cfg, s, f).1.value == EventFor(cfg, f, window)
  {
    hide FloodKey, Windowed;
  }

  lemma NewestKeepsLast(ts: seq<Time>, now: Time, n: pos)
    ensures var r := Newest(ts + [now], n); r != [] && r == r[..|r| - 1] + [now]
  {
  }

  lemma {:induction false} DropKeepsLast(ts: seq<Time>, now: Time, cutoff: int)
    requires cutoff <= now
    ensures DropBefore(ts + [now], cutoff) != []
  {
    if ts != [] {
      assert (ts + [now])[1..] == ts[1..] + [now];
      DropKeepsLast(ts[1..], now, cutoff);
    }
  }

  lemma StepCounts(cfg: Config, s: State, f: ParsedFrame)
    requires f.frameType == cfg.frameType
    ensures var swept, now, key := Swept(cfg, s, f.timestamp), f.timestamp, KeyOf(f);
      var window := Windowed(cfg, Buffer(swept, key), now);
      window != [] && Step(cfg, s, f) ==
        if |window| < cfg.threshold then (State(swept[key := Tracker(window, now)], s.callCount + 1), None)
        else (State(swept[key := Tracker([], now)], s.callCount + 1), Some(EventFor(cfg, f, window)))
  {
    hide FloodKey;
    NewestKeepsLast(Buffer(Swept(cfg, s, f.timestamp), KeyOf(f)), f.timestamp, 2 * cfg.threshold);
    var ts := Newest(Buffer(Swept(cfg, s, f.timestamp), KeyOf(f)) + [f.timestamp], 2 * cfg.threshold);
    DropKeepsLast(ts[..|ts| - 1], f.timestamp, f.timestamp - cfg.window);
  }

  lemma StepIgnores(cfg: Config, s: State, f: ParsedFrame)
    requires f.frameType != cfg.frameType
    ensures Step(cfg, s, f) == (s, None)
  {
  }

  // ---- Conservation: no assumption on timestamps ----

  lemma WindowedUncapped(cfg: Config, buffer: seq<Time>, now: Time)
    requires |buffer| < cfg.threshold
    ensures Windowed(cfg, buffer, now) == DropBefore(buffer + [now], now - cfg.window)
    ensures 0 < |Windowed(cfg, buffer, now)| <= cfg.threshold
  {
    DropKeepsLast(buffer, now, now - cfg.window);
  }

  /** After every call every buffer is short of the threshold, whatever the timestamps. */
  lemma {:induction false} BuffersBelowThreshold(cfg: Config, log: seq<ParsedFrame>, key: string)
    ensures |Buffer(Run(cfg, log).tracker, key)| < cfg.threshold
  {
    if log != [] {
      BuffersBelowThreshold(cfg, log[..|log| - 1], key);
    }
  }

  /** Every event of every run counts exactly `threshold` frames. */
  lemma EventsCountThreshold(cfg: Config, log: seq<ParsedFrame>)
    requires log != [] && Emitted(cfg, log).Some?
    ensures Emitted(cfg, log).value.frameCount == cfg.threshold
  {
    var s, f := Run(cfg, log[..|log| - 1]), log[|log| - 1];
    BuffersBelowThreshold(cfg, log[..|log| - 1], KeyOf(f));
    WindowedUncapped(cfg, Buffer(Swept(cfg, s, f.timestamp), KeyOf(f)), f.timestamp);
  }

  /** Neither length cap of `process` ever cuts anything: not the one before pruning, not the one on emission. */
  lemma CapsNeverCut(cfg: Config, log: seq<ParsedFrame>, f: ParsedFrame)
    ensures var appended := Buffer(Swept(cfg, Run(cfg, log), f.timestamp), KeyOf(f)) + [f.timestamp];
      && Newest(appended, 2 * cfg.threshold) == appended
      && Newest(DropBefore(appended, f.timestamp - cfg.window), cfg.threshold)
         == DropBefore(appended, f.timestamp - cfg.window)
  {
    BuffersBelowThreshold(cfg, log, KeyOf(f));
  }

  ghost predicate Matches(cfg: Config, f: ParsedFrame, key: string) {
    f.frameType == cfg.frameType && KeyOf(f) == key
  }

  ghost function FrameCount(cfg: Config, log: seq<ParsedFrame>, key: string): nat {
    if log == [] then 0
    else FrameCount(cfg, log[..|log| - 1], key) + (if Matches(cfg, log[|log| - 1], key) then 1 else 0)
  }

  ghost function EventCount(cfg: Config, log: seq<ParsedFrame>, key: string): nat {
    if log == [] then 0
    else EventCount(cfg, log[..|log| - 1], key)
         + (if Matches(cfg, log[|log| - 1], key) && Emitted(cfg, log).Some? then 1 else 0)
  }

  /** Frames that left the window by age: pruned from the front, or dropped with a stale tracker. */
  ghost function Expired(cfg: Config, log: seq<ParsedFrame>, key: string): nat {
    if log == [] then 0
    else
      var s, f := Run(cfg, log[..|log| - 1]), log[|log| - 1];
      if f.frameType != cfg.frameType then Expired(cfg, log[..|log| - 1], key)
      else
        var kept := Buffer(Swept(cfg, s, f.timestamp), key);
        var swept := |Buffer(s.tracker, key)| - |kept|;
        var aged := if KeyOf(f) == key
                    then |kept| + 1 - |DropBefore(kept + [f.timestamp], f.timestamp - cfg.window)|
                    else 0;
        Expired(cfg, log[..|log| - 1], key) + swept + aged
  }

  /** One call on one buffer: what it held, plus this frame if it is ours, is counted, aged or kept. */
  lemma CallConserves(cfg: Config, kept: seq<Time>, mine: bool, now: Time)
    requires |kept| < cfg.threshold
    ensures var fired := |Windowed(cfg, kept, now)| >= cfg.threshold;
      |kept| + (if mine then 1 else 0)
      == (if mine then |kept| + 1 - |DropBefore(kept + [now], now - cfg.window)| else 0)
         + (if mine && fired then cfg.threshold else 0)
         + |BufferAfter(cfg, kept, mine, now)|
  {
    WindowedUncapped(cfg, kept, now);
  }

  lemma Times(threshold: nat, events: nat, fired: bool)
    ensures threshold * (events + (if fired then 1 else 0)) == threshold * events + (if fired then threshold else 0)
  {
  }

  /** Conservation, for any timestamps: a frame is counted by one event, expires, or is buffered. */
  lemma {:induction false} Conservation(cfg: Config, log: seq<ParsedFrame>, key: string)
    ensures FrameCount(cfg, log, key) ==
            cfg.threshold * EventCount(cfg, log, key) + Expired(cfg, log, key)
            + |Buffer(Run(cfg, log).tracker, key)|
  {
    hide Step, FloodKey, Windowed, DropBefore;
    if log != [] {
      var before, f := log[..|log| - 1], log[|log| - 1];
      Conservation(cfg, before, key);
      if f.frameType == cfg.frameType {
        var kept := Buffer(Swept(cfg, Run(cfg, before), f.timestamp), key);
        BuffersBelowThreshold(cfg, before, key);
        StepBuffer(cfg, Run(cfg, before), f, key);
        CallConserves(cfg, kept, KeyOf(f) == key, f.timestamp);
        var fired := KeyOf(f) == key && Emitted(cfg, log).Some?;
        Times(cfg.threshold, EventCount(cfg, before, key), fired);
        assert Expired(cfg, log, key) + |Buffer(Run(cfg, log).tracker, key)|
            == Expired(cfg, before, key) + |Buffer(Run(cfg, before).tracker, key)|
               + (if KeyOf(f) == key then 1 else 0) - (if fired then cfg.threshold else 0);
        assert EventCount(cfg, log, key) == EventCount(cfg, before, key) + (if fired then 1 else 0);
      } else {
        StepIgnores(cfg, Run(cfg, before), f);
      }
    }
  }

  // ---- Refinement of the filter, for ordered timestamps ----

  /** The time of the last matching frame; 0 before the first. */
  ghost function Latest(cfg: Config, log: seq<ParsedFrame>): Time {
    if log == [] then 0
    else if log[|log| - 1].frameType == cfg.frameType then log[|log| - 1].timestamp
    else Latest(cfg, log[..|log| - 1])
  }

  lemma {:induction false} LatestIsLast(cfg: Config, log: seq<ParsedFrame>, f: ParsedFrame)
    requires Ordered(cfg, log + [f]) && f.frameType == cfg.frameType
    ensures Latest(cfg, log) <= f.timestamp
  {
    if log != [] {
      var before, g := log[..|log| - 1], log[|log| - 1];
      assert (log + [f])[|log| - 1] == g && (log + [f])[|log|] == f;
      if g.frameType != cfg.frameType {
        assert forall i :: 0 <= i < |before| ==> (before + [f])[i] == (log + [f])[i];
        LatestIsLast(cfg, before, f);
      }
    }
  }

  /** On an ordered slice, dropping a prefix is the filter. */
  lemma {:induction false} DropIsFilter(ts: seq<Time>, cutoff: int)
    requires Sorted(ts)
    ensures DropBefore(ts, cutoff) == From(ts, cutoff)
  {
    if ts == [] {
    } else if cutoff <= ts[0] {
      FromAll(ts, cutoff);
    } else {
      DropIsFilter(ts[1..], cutoff);
      FromNone(ts[..1], cutoff);
      FromAppend(ts[..1], ts[1..], cutoff);
      assert ts == ts[..1] + ts[1..];
    }
  }

  /** The buffer holds every pending frame the window can still see, in order and up to `latest`. */
  ghost predicate Tracks(cfg: Config, buffer: seq<Time>, pending: seq<Time>, latest: Time) {
    && |buffer| < cfg.threshold
    && Sorted(buffer) && UpTo(buffer, latest)
    && From(buffer, latest - cfg.window) == From(pending, latest - cfg.window)
  }

  ghost predicate SeenBounds(tracker: map<string, Tracker>, key: string, latest: Time) {
    key in tracker ==>
      && tracker[key].lastSeen <= latest
      && UpTo(tracker[key].timestamps, tracker[key].lastSeen)
  }

  lemma TracksLater(cfg: Config, buffer: seq<Time>, pending: seq<Time>, latest: Time, now: Time)
    requires Tracks(cfg, buffer, pending, latest) && latest <= now
    ensures Tracks(cfg, buffer, pending, now)
  {
    FromFrom(buffer, latest - cfg.window, now - cfg.window);
    FromFrom(pending, latest - cfg.window, now - cfg.window);
  }

  /** Neither the passing of time nor a sweep loses a frame the window can still see. */
  lemma SweepKeepsTracks(cfg: Config, s: State, key: string, pending: seq<Time>, latest: Time, now: Time)
    requires Tracks(cfg, Buffer(s.tracker, key), pending, latest) && latest <= now
    requires SeenBounds(s.tracker, key, latest)
    ensures Tracks(cfg, Buffer(Swept(cfg, s, now), key), pending, now)
    ensures SeenBounds(Swept(cfg, s, now), key, now)
  {
    TracksLater(cfg, Buffer(s.tracker, key), pending, latest, now);
    if key in s.tracker && key !in Swept(cfg, s, now) {
      FromNone(Buffer(s.tracker, key), now - cfg.window);
    }
  }

  /** A frame of this source sees exactly the filtered history. */
  lemma WindowedIs(cfg: Config, buffer: seq<Time>, pending: seq<Time>, now: Time)
    requires Tracks(cfg, buffer, pending, now)
    ensures Windowed(cfg, buffer, now) == From(buffer + [now], now - cfg.window)
      == From(pending + [now], now - cfg.window) != []
  {
    var cutoff := now - cfg.window;
    calc {
      Windowed(cfg, buffer, now);
      { WindowedUncapped(cfg, buffer, now); }
      DropBefore(buffer + [now], cutoff);
      { SortedSnoc(buffer, now); DropIsFilter(buffer + [now], cutoff); }
      From(buffer + [now], cutoff);
      { FromSnoc(buffer, now, cutoff); }
      From(buffer, cutoff) + [now];
      From(pending, cutoff) + [now];
      { FromSnoc(pending, now, cutoff); }
      From(pending + [now], cutoff);
    }
  }

  /** And the frame leaves the relation intact. */
  lemma WindowIsFilter(cfg: Config, buffer: seq<Time>, pending: seq<Time>, now: Time)
    requires Tracks(cfg, buffer, pending, now)
    ensures var window := Windowed(cfg, buffer, now);
      && window == From(pending + [now], now - cfg.window)
      && window != []
      && UpTo(window, now)
      && (|window| < cfg.threshold ==> Tracks(cfg, window, pending + [now], now))
  {
    hide Windowed, From, Sorted, UpTo;
    var cutoff := now - cfg.window;
    WindowedIs(cfg, buffer, pending, now);
    SortedSnoc(buffer, now);
    FromSorted(buffer + [now], cutoff);
    FromUpTo(buffer + [now], cutoff, now);
    FromAll(From(buffer + [now], cutoff), cutoff);
  }

  /** The pending history of a source after one of its frames, or after anybody else's. */
  ghost function PendingAfter(cfg: Config, pending: seq<Time>, mine: bool, now: Time): seq<Time> {
    if !mine then pending
    else if |From(pending + [now], now - cfg.window)| >= cfg.threshold then []
    else pending + [now]
  }

  lemma TracksUpTo(cfg: Config, buffer: seq<Time>, pending: seq<Time>, latest: Time)
    requires Tracks(cfg, buffer, pending, latest)
    ensures UpTo(buffer, latest)
  {
  }

  lemma EmptyTracks(cfg: Config, latest: Time)
    ensures Tracks(cfg, [], [], latest)
  {
  }

  lemma CallKeepsTracks(cfg: Config, buffer: seq<Time>, pending: seq<Time>, mine: bool, now: Time)
    requires Tracks(cfg, buffer, pending, now)
    ensures Tracks(cfg, BufferAfter(cfg, buffer, mine, now), PendingAfter(cfg, pending, mine, now), now)
    ensures UpTo(BufferAfter(cfg, buffer, mine, now), now)
  {
    hide Windowed, Tracks;
    WindowIsFilter(cfg, buffer, pending, now);
    EmptyTracks(cfg, now);
    TracksUpTo(cfg, buffer, pending, now);
  }

  lemma NothingSeen(cfg: Config, key: string)
    ensures SeenBounds(map[], key, 0) && Buffer(map[], key) == []
  {
  }

  lemma StepKeepsBounds(cfg: Config, s: State, f: ParsedFrame, key: string)
    requires f.frameType == cfg.frameType
    requires SeenBounds(Swept(cfg, s, f.timestamp), key, f.timestamp)
    requires UpTo(BufferAfter(cfg, Buffer(Swept(cfg, s, f.timestamp), key), KeyOf(f) == key, f.timestamp), f.timestamp)
    ensures SeenBounds(Step(cfg, s, f).0.tracker, key, f.timestamp)
  {
    hide FloodKey, Windowed;
  }

  lemma {:induction false} RunTracks(cfg: Config, log: seq<ParsedFrame>, src: Address, bssid: Address)
    requires Ordered(cfg, log)
    ensures var tracker, key := Run(cfg, log).tracker, FloodKey(src, bssid);
      && Tracks(cfg, Buffer(tracker, key), Pending(cfg, log, src, bssid), Latest(cfg, log))
      && SeenBounds(tracker, key, Latest(cfg, log))
  {
    hide Step, FloodKey, BufferAfter, Tracks, SeenBounds, UpTo, Swept, From, Buffer;
    var key := FloodKey(src, bssid);
    if log != [] {
      var before, f := log[..|log| - 1], log[|log| - 1];
      RunTracks(cfg, before, src, bssid);
      if f.frameType == cfg.frameType {
        var s, now, mine := Run(cfg, before), f.timestamp, SameSource(f, src, bssid);
        var pending := Pending(cfg, before, src, bssid);
        assert log == before + [f];
        LatestIsLast(cfg, before, f);
        SweepKeepsTracks(cfg, s, key, pending, Latest(cfg, before), now);
        if KeyOf(f) == key { FloodKeyInjective(f.srcMAC, f.bssid, src, bssid); }
        CallKeepsTracks(cfg, Buffer(Swept(cfg, s, now), key), pending, mine, now);
        StepBuffer(cfg, s, f, key);
        StepKeepsBounds(cfg, s, f, key);
      } else {
        StepIgnores(cfg, Run(cfg, before), f);
      }
    } else {
      EmptyTracks(cfg, 0);
      NothingSeen(cfg, key);
    }
  }

  /** What an event carries over from its frame and from the configuration, for any timestamps. */
  ghost predicate Carries(cfg: Config, f: ParsedFrame, e: FloodEvent) {
    && e.timestamp == f.timestamp && e.srcMAC == f.srcMAC && e.dstMAC == f.dstMAC && e.bssid == f.bssid
    && e.channel == f.channel && e.rssi == f.rssi && e.reasonCode == f.reasonCode
    && e.severity == cfg.severity && e.threshold == cfg.threshold && e.window == cfg.window
    && e.trackingKey == (if f.bssid.Some? then AddressString(f.srcMAC) + ":" + AddressString(f.bssid)
                         else AddressString(f.srcMAC))
    && (e.broadcast <==> f.dstMAC == Some([0xff, 0xff, 0xff, 0xff, 0xff, 0xff]))
  }

  lemma EventForCarries(cfg: Config, f: ParsedFrame, window: seq<Time>)
    requires window != []
    ensures Carries(cfg, f, EventFor(cfg, f, window))
  {
    hide AddressString;
  }

  lemma EventCarries(cfg: Config, log: seq<ParsedFrame>)
    requires log != [] && Emitted(cfg, log).Some?
    ensures Carries(cfg, log[|log| - 1], Emitted(cfg, log).value)
  {
    hide Step, Windowed, Swept, Run, Carries, EventFor;
    var s, f := Run(cfg, log[..|log| - 1]), log[|log| - 1];
    StepEvent(cfg, s, f);
    EventForCarries(cfg, f, Windowed(cfg, Buffer(Swept(cfg, s, f.timestamp), KeyOf(f)), f.timestamp));
  }

  /**
   * The rule is the filter: on any run with ordered timestamps the last frame raises an event
   * exactly when the same source's frames since its last event fill the window, and the event
   * carries the window's size and span.
   */
  lemma EmitsIffWindowFull(cfg: Config, log: seq<ParsedFrame>)
    requires log != [] && Ordered(cfg, log)
    ensures Emitted(cfg, log).Some? <==> WindowFull(cfg, log)
    ensures Emitted(cfg, log).Some? ==>
      var e, f, counted := Emitted(cfg, log).value, log[|log| - 1], InWindow(cfg, log);
      && e.frameCount == |counted| == cfg.threshold
      && e.duration == f.timestamp - counted[0]
      && SameSource(f, e.srcMAC, e.bssid) && e.timestamp == f.timestamp
  {
    hide Step, FloodKey, Windowed, Tracks, SeenBounds;
    var before, f := log[..|log| - 1], log[|log| - 1];
    if f.frameType == cfg.frameType {
      var s, now, pending := Run(cfg, before), f.timestamp, Pending(cfg, before, f.srcMAC, f.bssid);
      RunTracks(cfg, before, f.srcMAC, f.bssid);
      assert log == before + [f];
      LatestIsLast(cfg, before, f);
      SweepKeepsTracks(cfg, s, KeyOf(f), pending, Latest(cfg, before), now);
      WindowIsFilter(cfg, Buffer(Swept(cfg, s, now), KeyOf(f)), pending, now);
      StepBuffer(cfg, s, f, KeyOf(f));
      if Emitted(cfg, log).Some? {
        EventsCountThreshold(cfg, log);
        StepEvent(cfg, s, f);
      }
    } else {
      StepIgnores(cfg, Run(cfg, before), f);
    }
  }

  // ---- The rule as the object that updates its trackers in place ----

  class FloodTracker {
    var timestamps: seq<Time>
    var lastSeen: Time

    constructor ()
      ensures timestamps == [] && lastSeen == 0
    {
      timestamps, lastSeen := [], 0;
    }

    ghost function View(): Tracker reads this { Tracker(timestamps, lastSeen) }

    /** Appends `now`, caps the slice for memory, and drops the prefix that left the window. */
    method Record(cfg: Config, now: Time)
      modifies this
      ensures timestamps == Windowed(cfg, old(timestamps), now) && lastSeen == now
    {
      lastSeen := now;
      timestamps := timestamps + [now];
      if |timestamps| > cfg.threshold * 2 {
        timestamps := timestamps[|timestamps| - cfg.threshold * 2..];
      }
      var i := 0;
      while i < |timestamps| && timestamps[i] < now - cfg.window
        invariant 0 <= i <= |timestamps|
        invariant DropBefore(timestamps, now - cfg.window) == DropBefore(timestamps[i..], now - cfg.window)
      {
        assert timestamps[i..][1..] == timestamps[i + 1..];
        i := i + 1;
      }
      timestamps := timestamps[i..];
    }
  }

  class FloodRule {
    const cfg: Config
    var tracker: map<string, FloodTracker>
    var callCount: nat

    ghost predicate Separate()
      reads this
    {
      forall k, l :: k in tracker && l in tracker && k != l ==> tracker[k] != tracker[l]
    }

    ghost function View(): State
      reads this, tracker.Values
    {
      State(map k | k in tracker :: tracker[k].View(), callCount)
    }

    /** Apart from the tracker of `key`, the trackers hold exactly the entries of `view`. */
    ghost predicate ShowsBeside(key: string, view: map<string, Tracker>)
      reads this, tracker.Values
    {
      && tracker.Keys == view.Keys + {key}
      && forall k :: k in view && k != key ==> tracker[k].View() == view[k]
    }

    lemma Entries()
      ensures View().tracker.Keys == tracker.Keys
      ensures forall k :: k in tracker ==> View().tracker[k] == tracker[k].View()
    {
    }

    lemma ViewIs(view: map<string, Tracker>)
      requires tracker.Keys == view.Keys && forall k :: k in tracker ==> tracker[k].View() == view[k]
      ensures View() == State(view, callCount)
    {
    }

    lemma ShowsAll(key: string, view: map<string, Tracker>)
      requires key in tracker && ShowsBeside(key, view)
      ensures View() == State(view[key := tracker[key].View()], callCount)
    {
    }

    /** The rule is in the state that the frames of `log` lead to. */
    ghost predicate Follows(log: seq<ParsedFrame>)
      reads this, tracker.Values
    {
      Separate() && View() == Run(cfg, log)
    }

    constructor (cfg: Config)
      ensures Follows([]) && this.cfg == cfg
    {
      this.cfg := cfg;
      tracker, callCount := map[], 0;
    }

    method CleanupStale(now: Time)
      requires Separate()
      modifies this`tracker
      ensures Separate()
      ensures tracker.Values <= old(tracker.Values)
      ensures View().tracker == CleanedUp(old(View()).tracker, now, cfg.window)
      ensures forall k :: k in tracker <==> k in old(tracker) && now - old(tracker[k].lastSeen) <= 5 * cfg.window
    {
      hide View;
      ghost var before := View().tracker;
      Entries();
      var todo := tracker.Keys;
      while todo != {}
        invariant todo <= tracker.Keys
        invariant forall k :: k in tracker ==> k in before && tracker[k] == old(tracker)[k]
        invariant forall k :: k in before ==> (k in tracker <==> k in todo || !Stale(before[k], now, cfg.window))
        decreases |todo|
      {
        var key :| key in todo;
        todo := todo - {key};
        if now - tracker[key].lastSeen > cfg.window * 5 {
          tracker := tracker - {key};
        }
      }
      ViewIs(CleanedUp(before, now, cfg.window));
    }

    /** Counts the call and sweeps when one is due. */
    method CountCall(now: Time)
      requires Separate()
      modifies this`tracker, this`callCount
      ensures Separate() && callCount == old(callCount) + 1 && tracker.Values <= old(tracker.Values)
      ensures View().tracker == Swept(cfg, old(View()), now)
    {
      hide CleanedUp;
      callCount := callCount + 1;
      assert View().tracker == old(View()).tracker;
      if callCount % CLEANUP_INTERVAL == 0 {
        CleanupStale(now);
      }
    }

    method TrackerFor(key: string) returns (tr: FloodTracker)
      requires Separate()
      modifies this`tracker
      ensures Separate() && key in tracker && tracker[key] == tr
      ensures if key in old(tracker) then tracker == old(tracker)
              else fresh(tr) && tr.timestamps == [] && tracker == old(tracker)[key := tr]
    {
      if key !in tracker {
        var created := new FloodTracker();
        tracker := tracker[key := created];
      }
      return tracker[key];
    }

    /** The tracker of `key` in the swept map, created when missing. */
    method Track(key: string, now: Time) returns (tr: FloodTracker)
      requires Separate()
      modifies this`tracker, this`callCount
      ensures Separate() && key in tracker && tracker[key] == tr && callCount == old(callCount) + 1
      ensures fresh(tracker.Values - old(tracker.Values))
      ensures ShowsBeside(key, Swept(cfg, old(View()), now))
      ensures tr.timestamps == Buffer(Swept(cfg, old(View()), now), key)
    {
      hide Swept;
      CountCall(now);
      tr := TrackerFor(key);
    }

    /** The body of `process`, under the rule's lock. */
    method Handle(frame: ParsedFrame) returns (events: seq<FloodEvent>)
      requires Separate()
      modifies this`tracker, this`callCount, tracker.Values
      ensures Separate() && View() == Step(cfg, old(View()), frame).0
      ensures fresh(tracker.Values - old(tracker.Values))
      ensures events == match Step(cfg, old(View()), frame).1 case None => [] case Some(e) => [e]
    {
      hide Step, FloodKey, Windowed, Swept;
      ghost var before := View();
      if frame.frameType != cfg.frameType {
        StepIgnores(cfg, before, frame);
        return [];
      }
      StepCounts(cfg, before, frame);
      var now, key := frame.timestamp, KeyOf(frame);
      ghost var swept := Swept(cfg, before, now);
      var tr := Track(key, now);
      tr.Record(cfg, now);
      if |tr.timestamps| < cfg.threshold {
        events := [];
      } else {
        var realCount, duration := |tr.timestamps|, now as int - tr.timestamps[0];
        if |tr.timestamps| > cfg.threshold {
          tr.timestamps := tr.timestamps[|tr.timestamps| - cfg.threshold..];
        }
        tr.timestamps := [];
        events := [FloodEvent(now, cfg.severity, frame.srcMAC, frame.dstMAC, frame.bssid, frame.channel, frame.rssi,
                              realCount, duration, frame.reasonCode, cfg.threshold, cfg.window, key,
                              frame.dstMAC == Some(BROADCAST))];
      }
      ShowsAll(key, swept);
    }

    /** `process`: any frame after any run raises exactly the events of the specification. */
    method Process(frame: ParsedFrame, ghost log: seq<ParsedFrame>) returns (events: seq<FloodEvent>)
      requires Follows(log)
      modifies this, tracker.Values
      ensures Follows(log + [frame])
      ensures fresh(tracker.Values - old(tracker.Values))
      ensures events == match Emitted(cfg, log + [frame]) case None => [] case Some(e) => [e]
      ensures Ordered(cfg, log + [frame]) ==> (events != [] <==> WindowFull(cfg, log + [frame]))
      ensures forall e <- events :: e.frameCount == cfg.threshold && Carries(cfg, frame, e)
    {
      hide Step, Run, Emitted, Ordered, WindowFull, Carries;
      RunSnoc(cfg, log, frame);
      if Ordered(cfg, log + [frame]) { EmitsIffWindowFull(cfg, log + [frame]); }
      if Emitted(cfg, log + [frame]).Some? {
        EventsCountThreshold(cfg, log + [frame]);
        EventCarries(cfg, log + [frame]);
      }
      events := Handle(frame);
    }
  }
}
