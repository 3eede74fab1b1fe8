/**
 * internal/detector/rule_beacon_flood.go: windows of new BSSIDs per channel.
 *
 * A BSSID is new until it has been seen while learning, or a window holding it has been promoted. The
 * specification follows, per channel, the list of windows the rule closes and how it closes them.
 */
module BeaconFlood {
  import opened Basics
  import opened Mac
  import opened Frames

  const CLEANUP_INTERVAL: nat := 10000
  const MAX_SAMPLES: nat := 5

  datatype Config = Config(threshold: pos, window: nat, learningPeriod: nat)

  datatype Chan = Chan(
    windowStart: Time, lastSeen: Time, beaconCount: nat,
    newBSSIDs: map<string, Time>, sampleSSIDs: set<string>, rssiCounts: map<int, nat>)

  datatype State = State(startedAt: Time, known: map<string, Time>, channels: map<nat, Chan>, callCount: nat)

  datatype BeaconEvent = BeaconEvent(
    timestamp: Time, severity: Severity, srcMAC: Address, bssid: Address, channel: nat, rssi: int,
    frameCount: nat, duration: int, newBSSIDCount: nat, sampleSSIDs: set<string>, commonRSSI: Option<int>)

  // ---- The rule's bookkeeping ----

  predicate Relevant(f: ParsedFrame) { f.frameType == Beacon && f.bssid.Some? }

  function KeyOf(f: ParsedFrame): string
    requires Relevant(f)
  {
    MacString(f.bssid.value)
  }

  function Reset(now: Time): Chan { Chan(now, now, 0, map[], {}, map[]) }

  function Count(m: map<int, nat>, r: int): nat { if r in m then m[r] else 0 }

  /** A new BSSID enters the channel's window. */
  function Add(st: Chan, b: string, f: ParsedFrame): Chan {
    Chan(st.windowStart, f.timestamp, st.beaconCount + 1, st.newBSSIDs[b := f.timestamp],
         if f.ssid != "" && |st.sampleSSIDs| < MAX_SAMPLES then st.sampleSSIDs + {f.ssid} else st.sampleSSIDs,
         st.rssiCounts[f.rssi := Count(st.rssiCounts, f.rssi) + 1])
  }

  function MaxAge(cfg: Config): nat { cfg.learningPeriod + 10 * cfg.window }

  function Active(channels: map<nat, Chan>, now: Time, maxAge: int): map<nat, Chan> {
    map c | c in channels && now - channels[c].lastSeen <= maxAge :: channels[c]
  }

  function CleanedUp(cfg: Config, s: State, now: Time): State {
    s.(known := map b | b in s.known && now - s.known[b] <= MaxAge(cfg) :: s.known[b],
       channels := Active(s.channels, now, MaxAge(cfg)))
  }

  predicate Sweeping(s: State) { (s.callCount + 1) % CLEANUP_INTERVAL == 0 }

  /** The state a relevant frame finds: started, counted, and swept on every ten-thousandth call. */
  function Entered(cfg: Config, s: State, now: Time): State {
    var t := s.(startedAt := if s.startedAt == 0 then now else s.startedAt, callCount := s.callCount + 1);
    if Sweeping(s) then CleanedUp(cfg, t, now) else t
  }

  function ChannelOf(s: State, c: nat, now: Time): Chan { if c in s.channels then s.channels[c] else Reset(now) }

  predicate Expired(cfg: Config, st: Chan, now: Time) { now - st.windowStart > cfg.window }

  /** The frame's BSSID is learned or known already. */
  predicate Familiar(cfg: Config, t: State, f: ParsedFrame)
    requires Relevant(f)
  {
    f.timestamp - t.startedAt < cfg.learningPeriod || KeyOf(f) in t.known
  }

  /** The channel's window with the frame added, a fresh one when the old one has expired. */
  function Grown(cfg: Config, t: State, f: ParsedFrame): Chan
    requires Relevant(f)
  {
    var st := ChannelOf(t, f.channel, f.timestamp);
    Add(if Expired(cfg, st, f.timestamp) then Reset(f.timestamp) else st, KeyOf(f), f)
  }

  function Promoted(cfg: Config, t: State, f: ParsedFrame): map<string, Time> {
    var st := ChannelOf(t, f.channel, f.timestamp);
    if Expired(cfg, st, f.timestamp) then t.known + st.newBSSIDs else t.known
  }

  /** `r` holds at least 80% of a non-empty total. */
  ghost predicate Holds80(m: map<int, nat>, total: nat, r: int) {
    r in m && total > 0 && m[r] * 100 >= total * 80
  }

  ghost function Dominant(m: map<int, nat>, total: nat): Option<int> {
    if r :| Holds80(m, total, r) then Some(r) else None
  }

  ghost function EventFor(f: ParsedFrame, w: Chan): BeaconEvent {
    BeaconEvent(f.timestamp, Severity.Warning, f.srcMAC, f.bssid, f.channel, f.rssi, w.beaconCount,
                f.timestamp - w.windowStart, |w.newBSSIDs|, w.sampleSSIDs, Dominant(w.rssiCounts, w.beaconCount))
  }

  function NewBSSID(cfg: Config, t: State, f: ParsedFrame): State
    requires Relevant(f)
  {
    var known, w := Promoted(cfg, t, f), Grown(cfg, t, f);
    if |w.newBSSIDs| < cfg.threshold then t.(known := known, channels := t.channels[f.channel := w])
    else t.(known := known + w.newBSSIDs, channels := t.channels[f.channel := Reset(f.timestamp)])
  }

  function Step(cfg: Config, s: State, f: ParsedFrame): State {
    if !Relevant(f) then s
    else
      var t := Entered(cfg, s, f.timestamp);
      if Familiar(cfg, t, f) then t.(known := t.known[KeyOf(f) := f.timestamp]) else NewBSSID(cfg, t, f)
  }

  /** The frame fills its channel's window. */
  predicate Fires(cfg: Config, s: State, f: ParsedFrame) {
    Relevant(f) &&
    var t := Entered(cfg, s, f.timestamp);
    !Familiar(cfg, t, f) && |Grown(cfg, t, f).newBSSIDs| >= cfg.threshold
  }

  ghost function Emitted(cfg: Config, s: State, f: ParsedFrame): Option<BeaconEvent> {
    if Fires(cfg, s, f) then Some(EventFor(f, Grown(cfg, Entered(cfg, s, f.timestamp), f))) else None
  }

  const INIT: State := State(0, map[], map[], 0)

  /** The state after a segment of frames, from any state. */
  function Run(cfg: Config, start: State, log: seq<ParsedFrame>): State {
    if log == [] then start else Step(cfg, Run(cfg, start, log[..|log| - 1]), log[|log| - 1])
  }

  lemma RunSnoc(cfg: Config, start: State, log: seq<ParsedFrame>, f: ParsedFrame)
    ensures Run(cfg, start, log + [f]) == Step(cfg, Run(cfg, start, log), f)
  {
    hide Step;
    assert (log + [f])[..|log|] == log;
  }

  // ---- The dominant signal strength ----

  ghost function Sum(m: map<int, nat>): nat {
    if m.Keys == {} then 0
    else
      var k := Pick(m.Keys);
      m[k] + Sum(m - {k})
  }

  lemma {:induction false} SumSplit(m: map<int, nat>, k: int)
    requires k in m
    ensures Sum(m) == m[k] + Sum(m - {k})
    decreases |m|
  {
    var j := Pick(m.Keys);
    if j != k {
      SumSplit(m - {j}, k);
      SumSplit(m - {k}, j);
      assert m - {j} - {k} == m - {k} - {j};
    }
  }

  lemma SumIncrement(m: map<int, nat>, r: int)
    ensures Sum(m[r := Count(m, r) + 1]) == Sum(m) + 1
  {
    var n := m[r := Count(m, r) + 1];
    SumSplit(n, r);
    if r in m {
      SumSplit(m, r);
      assert n - {r} == m - {r};
    } else {
      assert n - {r} == m;
    }
  }

  lemma DominantUnique(m: map<int, nat>, r: int, q: int)
    requires Holds80(m, Sum(m), r) && Holds80(m, Sum(m), q)
    ensures r == q
  {
    if r != q {
      SumSplit(m, r);
      SumSplit(m - {r}, q);
    }
  }

  /** `dominantRSSI`: whatever the order of iteration, it reports a value exactly when one holds 80%. */
  method DominantRSSI(m: map<int, nat>, total: nat) returns (common: int, ok: bool)
    ensures ok <==> exists r :: Holds80(m, total, r)
    ensures ok ==> Holds80(m, total, common)
    ensures total == Sum(m) ==> Dominant(m, total) == if ok then Some(common) else None
  {
    if total == 0 {
      return 0, false;
    }
    var most: nat := 0;
    common := 0;
    var todo := m.Keys;
    while todo != {}
      invariant todo <= m.Keys
      invariant forall r :: r in m && r !in todo ==> m[r] <= most
      invariant most > 0 ==> common in m && m[common] == most
      decreases |todo|
    {
      ghost var some: int := Pick(todo);
      assert exists r :: r in todo by { assert some in todo; }
      var r :| r in todo;
      todo := todo - {r};
      if m[r] > most {
        common, most := r, m[r];
      }
    }
    ok := most * 100 >= total * 80;
    if ok { assert Holds80(m, total, common); }
    if ok && total == Sum(m) {
      DominantUnique(m, common, Dominant(m, total).value);
    }
  }

  // ---- What every reachable state satisfies ----

  ghost predicate ChanInv(cfg: Config, st: Chan) {
    |st.newBSSIDs| < cfg.threshold && Sum(st.rssiCounts) == st.beaconCount
  }

  ghost predicate Inv(cfg: Config, s: State) {
    forall c :: c in s.channels ==> ChanInv(cfg, s.channels[c])
  }

  lemma ResetInv(cfg: Config, now: Time)
    ensures ChanInv(cfg, Reset(now))
  {
  }

  lemma AddInv(cfg: Config, st: Chan, b: string, f: ParsedFrame)
    requires ChanInv(cfg, st)
    ensures |Add(st, b, f).newBSSIDs| <= cfg.threshold
    ensures Sum(Add(st, b, f).rssiCounts) == Add(st, b, f).beaconCount
  {
    hide Sum;
    SumIncrement(st.rssiCounts, f.rssi);
  }

  lemma GrownInv(cfg: Config, t: State, f: ParsedFrame)
    requires Relevant(f) && Inv(cfg, t)
    ensures var w := Grown(cfg, t, f);
      |w.newBSSIDs| <= cfg.threshold && Sum(w.rssiCounts) == w.beaconCount
  {
    hide KeyOf, Add, ChanInv, Sum;
    ResetInv(cfg, f.timestamp);
    var st := ChannelOf(t, f.channel, f.timestamp);
    AddInv(cfg, if Expired(cfg, st, f.timestamp) then Reset(f.timestamp) else st, KeyOf(f), f);
  }

  lemma StepInv(cfg: Config, s: State, f: ParsedFrame)
    requires Inv(cfg, s)
    ensures Inv(cfg, Step(cfg, s, f))
  {
    hide KeyOf, Grown, Sum;
    if Relevant(f) {
      GrownInv(cfg, Entered(cfg, s, f.timestamp), f);
      ResetInv(cfg, f.timestamp);
    }
  }

  lemma {:induction false} RunInv(cfg: Config, start: State, log: seq<ParsedFrame>)
    requires Inv(cfg, start)
    ensures Inv(cfg, Run(cfg, start, log))
  {
    if log != [] {
      RunInv(cfg, start, log[..|log| - 1]);
      StepInv(cfg, Run(cfg, start, log[..|log| - 1]), log[|log| - 1]);
    }
  }

  /** Every event counts exactly `threshold` BSSIDs, and its dominant RSSI is the one holding 80% of its frames. */
  lemma EventMeaning(cfg: Config, s: State, f: ParsedFrame)
    requires Inv(cfg, s) && Fires(cfg, s, f)
    ensures var e, w := Emitted(cfg, s, f).value, Grown(cfg, Entered(cfg, s, f.timestamp), f);
      && e.newBSSIDCount == cfg.threshold
      && e.frameCount == Sum(w.rssiCounts)
      && (forall r :: Holds80(w.rssiCounts, e.frameCount, r) <==> e.commonRSSI == Some(r))
  {
    hide KeyOf, Grown, Sum;
    var t := Entered(cfg, s, f.timestamp);
    var w := Grown(cfg, t, f);
    GrownInv(cfg, t, f);
    forall r | Holds80(w.rssiCounts, w.beaconCount, r) ensures Dominant(w.rssiCounts, w.beaconCount) == Some(r) {
      DominantUnique(w.rssiCounts, r, Dominant(w.rssiCounts, w.beaconCount).value);
    }
  }

  // ---- The windows a channel closes ----

  datatype Closing = Fired | TimedOut(late: string)

  /** A closed window: the BSSIDs it counted, and what closed it; a timed-out one by the frame of `late`. */
  datatype Window = Window(members: set<string>, closing: Closing)

  ghost function Current(s: State, c: nat): set<string> {
    if c in s.channels then s.channels[c].newBSSIDs.Keys else {}
  }

  /** What one frame closes on channel `c`: an expired window, a full one, or (threshold 1) both. */
  ghost function ClosedBy(cfg: Config, s: State, f: ParsedFrame, c: nat): seq<Window> {
    if !Relevant(f) || f.channel != c then []
    else
      var t := Entered(cfg, s, f.timestamp);
      if Familiar(cfg, t, f) then []
      else
        (if Expired(cfg, ChannelOf(t, c, f.timestamp), f.timestamp)
         then [Window(Current(t, c), TimedOut(KeyOf(f)))] else [])
        + (if Fires(cfg, s, f) then [Window(Grown(cfg, t, f).newBSSIDs.Keys, Fired)] else [])
  }

  /** The windows a run segment closes on channel `c`, in order. */
  ghost function Windows(cfg: Config, start: State, log: seq<ParsedFrame>, c: nat): seq<Window> {
    if log == [] then []
    else
      var before := log[..|log| - 1];
      Windows(cfg, start, before, c) + ClosedBy(cfg, Run(cfg, start, before), log[|log| - 1], c)
  }

  /** What a window shares with the next one: the BSSID whose own frame found the window expired. */
  ghost function Shared(w: Window): set<string> {
    if w.closing.TimedOut? && w.closing.late in w.members then {w.closing.late} else {}
  }

  /** Windows `i` and `j` have in common only what the earlier hands to its immediate successor. */
  ghost predicate MeetsOnlyNext(ws: seq<Window>, i: int, j: int)
    requires 0 <= i < j < |ws|
  {
    ws[i].members * ws[j].members == if j == i + 1 then Shared(ws[i]) else {}
  }

  ghost predicate AlmostDisjoint(ws: seq<Window>) {
    forall i, j :: 0 <= i < j < |ws| ==> MeetsOnlyNext(ws, i, j)
  }

  /** How a current window `cur` relates to the closed windows `ws` before it. */
  ghost predicate Succeeds(ws: seq<Window>, cur: set<string>) {
    forall i :: 0 <= i < |ws| ==> ws[i].members * cur == if i == |ws| - 1 then Shared(ws[i]) else {}
  }

  ghost predicate AllKnown(ws: seq<Window>, known: set<string>) {
    forall i :: 0 <= i < |ws| ==> ws[i].members <= known
  }

  /** Every closed window is promoted, so nothing known can be counted again. */
  ghost predicate Tracks(ws: seq<Window>, cur: set<string>, known: set<string>) {
    AlmostDisjoint(ws) && Succeeds(ws, cur) && AllKnown(ws, known)
  }

  lemma TracksGrows(ws: seq<Window>, cur: set<string>, known: set<string>, b: string)
    requires Tracks(ws, cur, known) && b !in known
    ensures Tracks(ws, cur + {b}, known)
  {
  }

  lemma TracksCloses(ws: seq<Window>, cur: set<string>, known: set<string>, closing: Closing)
    requires Tracks(ws, cur, known) && (closing.TimedOut? ==> closing.late !in known)
    ensures var w := Window(cur, closing);
      Tracks(ws + [w], if closing.TimedOut? then {closing.late} else {}, known + cur)
  {
    var w := Window(cur, closing);
    forall i, j | 0 <= i < j < |ws + [w]| ensures MeetsOnlyNext(ws + [w], i, j) {
      if j < |ws| { assert MeetsOnlyNext(ws, i, j); }
    }
  }

  lemma TracksMoreKnown(ws: seq<Window>, cur: set<string>, known: set<string>, more: set<string>)
    requires Tracks(ws, cur, known) && known <= more
    ensures Tracks(ws, cur, more)
  {
  }

  ghost function Beacons(log: seq<ParsedFrame>): nat {
    if log == [] then 0 else Beacons(log[..|log| - 1]) + (if Relevant(log[|log| - 1]) then 1 else 0)
  }

  lemma StepCalls(cfg: Config, s: State, f: ParsedFrame)
    ensures Step(cfg, s, f).callCount == s.callCount + if Relevant(f) then 1 else 0
  {
    hide KeyOf, Grown, Promoted, Active;
  }

  /** The cleanup pass runs with every ten-thousandth beacon. */
  lemma {:induction false} CleanupEvery(cfg: Config, start: State, log: seq<ParsedFrame>)
    ensures Run(cfg, start, log).callCount == start.callCount + Beacons(log)
    ensures Sweeping(Run(cfg, start, log)) <==> (start.callCount + Beacons(log) + 1) % 10000 == 0
  {
    hide Step, Relevant;
    if log != [] {
      CleanupEvery(cfg, start, log[..|log| - 1]);
      StepCalls(cfg, Run(cfg, start, log[..|log| - 1]), log[|log| - 1]);
    }
  }

  /** No relevant frame of the segment triggers the periodic cleanup. */
  ghost predicate NoCleanup(cfg: Config, start: State, log: seq<ParsedFrame>) {
    forall k :: 0 <= k < |log| && Relevant(log[k]) ==> !Sweeping(Run(cfg, start, log[..k]))
  }

  lemma NoCleanupPrefix(cfg: Config, start: State, log: seq<ParsedFrame>)
    requires log != [] && NoCleanup(cfg, start, log)
    ensures NoCleanup(cfg, start, log[..|log| - 1])
    ensures Relevant(log[|log| - 1]) ==> !Sweeping(Run(cfg, start, log[..|log| - 1]))
  {
    hide Sweeping, Run;
    var before := log[..|log| - 1];
    forall k | 0 <= k < |before| && Relevant(before[k]) ensures !Sweeping(Run(cfg, start, before[..k])) {
      assert before[..k] == log[..k] && before[k] == log[k];
    }
  }

  /** The frame brings a new BSSID to channel `c`. */
  ghost predicate Counts(cfg: Config, s: State, f: ParsedFrame, c: nat) {
    Relevant(f) && f.channel == c && !Familiar(cfg, Entered(cfg, s, f.timestamp), f)
  }

  ghost predicate Late(cfg: Config, s: State, f: ParsedFrame) {
    Expired(cfg, ChannelOf(s, f.channel, f.timestamp), f.timestamp)
  }

  /** Members of the channel's window once the frame is counted. */
  ghost function Members(cfg: Config, s: State, f: ParsedFrame): set<string>
    requires Relevant(f)
  {
    (if Late(cfg, s, f) then {} else Current(s, f.channel)) + {KeyOf(f)}
  }

  lemma EnteredKeeps(cfg: Config, s: State, now: Time)
    requires !Sweeping(s)
    ensures Entered(cfg, s, now).known == s.known && Entered(cfg, s, now).channels == s.channels
  {
  }

  lemma CurrentIs(s: State, c: nat, now: Time)
    ensures Current(s, c) == ChannelOf(s, c, now).newBSSIDs.Keys
    ensures forall t: State :: t.channels == s.channels ==> ChannelOf(t, c, now) == ChannelOf(s, c, now)
  {
  }

  lemma GrownKeys(cfg: Config, t: State, f: ParsedFrame)
    requires Relevant(f)
    ensures var st := ChannelOf(t, f.channel, f.timestamp);
      if Expired(cfg, st, f.timestamp)
      then Grown(cfg, t, f).newBSSIDs.Keys == {KeyOf(f)} && Promoted(cfg, t, f).Keys == t.known.Keys + st.newBSSIDs.Keys
      else Grown(cfg, t, f).newBSSIDs.Keys == st.newBSSIDs.Keys + {KeyOf(f)} && Promoted(cfg, t, f) == t.known
  {
    hide KeyOf, ChannelOf;
  }

  /** What the frame finds and makes of its channel's window, in terms of member sets only. */
  lemma CountedKeys(cfg: Config, s: State, f: ParsedFrame, c: nat)
    requires !Sweeping(s) && Counts(cfg, s, f, c)
    ensures var t := Entered(cfg, s, f.timestamp);
      && KeyOf(f) !in s.known.Keys && t.channels == s.channels
      && Current(t, c) == Current(s, c) && ChannelOf(t, c, f.timestamp) == ChannelOf(s, c, f.timestamp)
      && Grown(cfg, t, f).newBSSIDs.Keys == Members(cfg, s, f)
      && |Grown(cfg, t, f).newBSSIDs| == |Members(cfg, s, f)|
      && Promoted(cfg, t, f).Keys == s.known.Keys + (if Late(cfg, s, f) then Current(s, c) else {})
  {
    hide KeyOf, Grown, Promoted, ChannelOf, Entered, Current, Expired, Sweeping;
    var t := Entered(cfg, s, f.timestamp);
    EnteredKeeps(cfg, s, f.timestamp);
    GrownKeys(cfg, t, f);
    CurrentIs(t, c, f.timestamp);
    CurrentIs(s, c, f.timestamp);
    assert |Grown(cfg, t, f).newBSSIDs.Keys| == |Grown(cfg, t, f).newBSSIDs|;
  }

  /** A counted frame: what it closes, and the sets it leaves. */
  lemma CountedShape(cfg: Config, s: State, f: ParsedFrame, c: nat)
    requires !Sweeping(s) && Counts(cfg, s, f, c)
    ensures KeyOf(f) !in s.known.Keys
    ensures var cur, grown, s' := Current(s, c), Members(cfg, s, f), Step(cfg, s, f);
      var late := if Late(cfg, s, f) then [Window(cur, TimedOut(KeyOf(f)))] else [];
      var known := s.known.Keys + (if Late(cfg, s, f) then cur else {});
      if Fires(cfg, s, f)
      then ClosedBy(cfg, s, f, c) == late + [Window(grown, Fired)] && Current(s', c) == {}
           && s'.known.Keys == known + grown && |grown| >= cfg.threshold
      else ClosedBy(cfg, s, f, c) == late && Current(s', c) == grown && s'.known.Keys == known
  {
    hide KeyOf, Grown, Members, Promoted, Entered;
    CountedKeys(cfg, s, f, c);
    if !Fires(cfg, s, f) && !Late(cfg, s, f) { assert ClosedBy(cfg, s, f, c) == [] + []; }
  }

  /** Any other frame leaves the channel alone, and forgets nothing that is known. */
  lemma OtherShape(cfg: Config, s: State, f: ParsedFrame, c: nat)
    requires (Relevant(f) ==> !Sweeping(s)) && !Counts(cfg, s, f, c)
    ensures ClosedBy(cfg, s, f, c) == [] && Current(Step(cfg, s, f), c) == Current(s, c)
    ensures s.known.Keys <= Step(cfg, s, f).known.Keys
    ensures f.channel == c ==> !Fires(cfg, s, f)
  {
    hide KeyOf, Grown;
  }

  /** The second half of a counted frame: the grown window closes too when it is full. */
  lemma AndFires(cfg: Config, s: State, f: ParsedFrame, c: nat, ws: seq<Window>, late: seq<Window>, known: set<string>)
    requires !Sweeping(s) && Counts(cfg, s, f, c)
    requires late == if Late(cfg, s, f) then [Window(Current(s, c), TimedOut(KeyOf(f)))] else []
    requires known == s.known.Keys + (if Late(cfg, s, f) then Current(s, c) else {})
    requires Tracks(ws + late, Members(cfg, s, f), known)
    ensures Tracks(ws + ClosedBy(cfg, s, f, c), Current(Step(cfg, s, f), c), Step(cfg, s, f).known.Keys)
  {
    hide KeyOf, Tracks, ClosedBy, Step, Current, Sweeping, Fires, Late, Members, Familiar, Entered;
    CountedShape(cfg, s, f, c);
    if Fires(cfg, s, f) {
      var full := Window(Members(cfg, s, f), Fired);
      TracksCloses(ws + late, Members(cfg, s, f), known, Fired);
      assert (ws + late) + [full] == ws + (late + [full]);
    }
  }

  lemma StepTracks(cfg: Config, s: State, f: ParsedFrame, c: nat, ws: seq<Window>)
    requires Relevant(f) ==> !Sweeping(s)
    requires Tracks(ws, Current(s, c), s.known.Keys)
    ensures Tracks(ws + ClosedBy(cfg, s, f, c), Current(Step(cfg, s, f), c), Step(cfg, s, f).known.Keys)
  {
    hide KeyOf, Tracks, ClosedBy, Step, Current, Sweeping, Fires, Late;
    if Counts(cfg, s, f, c) {
      CountedShape(cfg, s, f, c);
      var cur, known, b := Current(s, c), s.known.Keys, KeyOf(f);
      if Late(cfg, s, f) {
        TracksCloses(ws, cur, known, TimedOut(b));
        assert Members(cfg, s, f) == {b};
        AndFires(cfg, s, f, c, ws, [Window(cur, TimedOut(b))], known + cur);
      } else {
        TracksGrows(ws, cur, known, b);
        assert ws + [] == ws && known + {} == known && Members(cfg, s, f) == cur + {b};
        AndFires(cfg, s, f, c, ws, [], known);
      }
    } else {
      OtherShape(cfg, s, f, c);
      TracksMoreKnown(ws, Current(s, c), s.known.Keys, Step(cfg, s, f).known.Keys);
      assert ws + [] == ws;
    }
  }

  lemma {:induction false} RunTracks(cfg: Config, start: State, log: seq<ParsedFrame>, c: nat)
    requires NoCleanup(cfg, start, log)
    ensures Tracks(Windows(cfg, start, log, c), Current(Run(cfg, start, log), c), Run(cfg, start, log).known.Keys)
  {
    if log != [] {
      hide Tracks, Step, ClosedBy, NoCleanup, Sweeping;
      NoCleanupPrefix(cfg, start, log);
      RunTracks(cfg, start, log[..|log| - 1], c);
      StepTracks(cfg, Run(cfg, start, log[..|log| - 1]), log[|log| - 1], c, Windows(cfg, start, log[..|log| - 1], c));
    }
  }

  /**
   * In any run segment without a cleanup pass, two windows of one channel share nothing, except that a
   * window closed by expiry hands on the BSSID of the late frame when it had counted it: that BSSID was
   * not yet known, so the next window counts it again.
   */
  lemma WindowsAlmostDisjoint(cfg: Config, start: State, log: seq<ParsedFrame>, c: nat)
    requires NoCleanup(cfg, start, log)
    ensures AlmostDisjoint(Windows(cfg, start, log, c))
    ensures Succeeds(Windows(cfg, start, log, c), Current(Run(cfg, start, log), c))
  {
    RunTracks(cfg, start, log, c);
  }

  /** The frame that found the window expired brought a BSSID which the window had counted. */
  ghost predicate Returns(w: Window) { w.closing.TimedOut? && w.closing.late in w.members }

  ghost predicate Disjoint(ws: seq<Window>, i: int, j: int)
    requires 0 <= i < j < |ws|
  {
    ws[i].members !! ws[j].members
  }

  /** Pairwise disjoint windows, the open one `cur` included. */
  ghost predicate AllDisjoint(ws: seq<Window>, cur: set<string>) {
    && (forall i, j :: 0 <= i < j < |ws| ==> Disjoint(ws, i, j))
    && (forall i :: 0 <= i < |ws| ==> ws[i].members !! cur)
  }

  /** Sets that meet in `shared` are disjoint exactly when it is empty. */
  lemma MeetDisjoint(a: set<string>, b: set<string>, shared: set<string>)
    requires a * b == shared
    ensures a !! b <==> shared == {}
  {
    if shared == {} {
      forall x | x in a ensures x !in b {
        assert x !in a * b;
      }
    }
  }

  lemma ReturnsIff(w: Window)
    ensures Returns(w) <==> Shared(w) != {}
  {
    if Returns(w) {
      assert w.closing.late in Shared(w);
    }
  }

  /** A list of windows that meet only as `Succeeds` and `AlmostDisjoint` say. */
  lemma DisjointIffNoneReturns(ws: seq<Window>, cur: set<string>)
    requires AlmostDisjoint(ws) && Succeeds(ws, cur)
    ensures AllDisjoint(ws, cur) <==> forall i :: 0 <= i < |ws| ==> !Returns(ws[i])
  {
    hide Returns, Shared;
    forall i, j | 0 <= i < j < |ws| ensures Disjoint(ws, i, j) <==> (j == i + 1 ==> !Returns(ws[i])) {
      assert MeetsOnlyNext(ws, i, j);
      MeetDisjoint(ws[i].members, ws[j].members, if j == i + 1 then Shared(ws[i]) else {});
      ReturnsIff(ws[i]);
    }
    forall i | 0 <= i < |ws| ensures ws[i].members !! cur <==> (i == |ws| - 1 ==> !Returns(ws[i])) {
      MeetDisjoint(ws[i].members, cur, if i == |ws| - 1 then Shared(ws[i]) else {});
      ReturnsIff(ws[i]);
    }
    if AllDisjoint(ws, cur) {
      forall i | 0 <= i < |ws| ensures !Returns(ws[i]) {
        if i + 1 < |ws| {
          assert Disjoint(ws, i, i + 1);
        }
      }
    }
  }

  /**
   * The windows of a segment, the open one included, are pairwise disjoint exactly when no BSSID that a
   * window counted is the one whose beacon finds that window expired.
   */
  lemma WindowsDisjointIff(cfg: Config, start: State, log: seq<ParsedFrame>, c: nat)
    requires NoCleanup(cfg, start, log)
    ensures var ws := Windows(cfg, start, log, c);
      AllDisjoint(ws, Current(Run(cfg, start, log), c)) <==> forall i :: 0 <= i < |ws| ==> !Returns(ws[i])
  {
    hide Run, Windows, AlmostDisjoint, Succeeds, AllDisjoint;
    WindowsAlmostDisjoint(cfg, start, log, c);
    DisjointIffNoneReturns(Windows(cfg, start, log, c), Current(Run(cfg, start, log), c));
  }

  lemma FirstCounts(cfg: Config, f: ParsedFrame)
    requires cfg.learningPeriod == 0 && Relevant(f)
    ensures !Sweeping(INIT) && Counts(cfg, INIT, f, f.channel)
  {
    hide KeyOf;
  }

  lemma FirstBeacon(cfg: Config, f: ParsedFrame)
    requires cfg.learningPeriod == 0 && cfg.threshold >= 2 && Relevant(f)
    ensures var s := Run(cfg, INIT, [f]);
      && f.channel in s.channels && s.channels[f.channel].windowStart == f.timestamp
      && Current(s, f.channel) == {KeyOf(f)} && s.known == map[] && s.callCount == 1
      && f.timestamp >= s.startedAt
    ensures Windows(cfg, INIT, [f], f.channel) == []
  {
    hide KeyOf;
    assert [f] == [] + [f] && [f][..0] == [];
    RunSnoc(cfg, INIT, [], f);
    FirstCounts(cfg, f);
    CountedShape(cfg, INIT, f, f.channel);
    assert Members(cfg, INIT, f) == {KeyOf(f)};
  }

  lemma NoCleanupOfTwo(cfg: Config, f: ParsedFrame, g: ParsedFrame)
    requires Run(cfg, INIT, [f]).callCount == 1
    ensures NoCleanup(cfg, INIT, [f, g])
  {
    hide Step;
    assert [f, g][..0] == [] && [f, g][..1] == [f];
  }

  lemma SameKey(f: ParsedFrame, g: ParsedFrame)
    requires Relevant(f) && Relevant(g) && f.bssid == g.bssid
    ensures KeyOf(f) == KeyOf(g)
  {
  }

  /** The exception happens: a BSSID alone in a window, seen again after it expired, is in two windows. */
  lemma WindowsMayOverlap(cfg: Config, f: ParsedFrame, g: ParsedFrame)
    requires cfg.learningPeriod == 0 && cfg.threshold >= 2
    requires Relevant(f) && Relevant(g) && f.bssid == g.bssid && f.channel == g.channel
    requires g.timestamp - f.timestamp > cfg.window
    ensures NoCleanup(cfg, INIT, [f, g])
    ensures Windows(cfg, INIT, [f, g], f.channel) == [Window({KeyOf(f)}, TimedOut(KeyOf(f)))]
    ensures Current(Run(cfg, INIT, [f, g]), f.channel) == {KeyOf(f)}
    ensures !AllDisjoint(Windows(cfg, INIT, [f, g], f.channel), Current(Run(cfg, INIT, [f, g]), f.channel))
  {
    hide KeyOf, ClosedBy, Step, NoCleanup;
    var c, s := f.channel, Run(cfg, INIT, [f]);
    FirstBeacon(cfg, f);
    NoCleanupOfTwo(cfg, f, g);
    SameKey(f, g);
    assert [f, g] == [f] + [g] && [f, g][..1] == [f] && [f, g][..0] == [];
    RunSnoc(cfg, INIT, [f], g);
    CountedShape(cfg, s, g, c);
    assert Members(cfg, s, g) == {KeyOf(f)};
  }

  // ---- Windows, knowledge and events in terms of the frames seen ----

  /** The frame from which on channel `c` counts towards its open window: a late frame, or the one after an event. */
  ghost function OpenFrom(cfg: Config, start: State, log: seq<ParsedFrame>, c: nat): Option<nat> {
    if log == [] then None
    else
      var before, f := log[..|log| - 1], log[|log| - 1];
      var s := Run(cfg, start, before);
      if ClosedBy(cfg, s, f, c) == [] then OpenFrom(cfg, start, before, c)
      else if Fires(cfg, s, f) then Some(|log|)
      else Some(|before|)
  }

  /** The BSSIDs of the frames from frame `k` on that brought a new one to channel `c`. */
  ghost function CountedFrom(cfg: Config, start: State, log: seq<ParsedFrame>, c: nat, k: nat): set<string> {
    if |log| <= k then {}
    else
      var before, f := log[..|log| - 1], log[|log| - 1];
      CountedFrom(cfg, start, before, c, k)
      + if Counts(cfg, Run(cfg, start, before), f, c) then {KeyOf(f)} else {}
  }

  /** What the open window of channel `c` should hold: what was counted since it began. */
  ghost function OpenWindow(cfg: Config, start: State, log: seq<ParsedFrame>, c: nat): set<string> {
    match OpenFrom(cfg, start, log, c)
    case None => Current(start, c) + CountedFrom(cfg, start, log, c, 0)
    case Some(k) => CountedFrom(cfg, start, log, c, k)
  }

  lemma CountedSnoc(cfg: Config, start: State, log: seq<ParsedFrame>, f: ParsedFrame, c: nat, k: nat)
    ensures CountedFrom(cfg, start, log + [f], c, k) ==
      if |log| + 1 <= k then {}
      else CountedFrom(cfg, start, log, c, k)
           + if Counts(cfg, Run(cfg, start, log), f, c) then {KeyOf(f)} else {}
  {
    hide KeyOf, Counts, Run;
    assert (log + [f])[..|log|] == log;
  }

  lemma CountedBeyond(cfg: Config, start: State, log: seq<ParsedFrame>, c: nat)
    ensures CountedFrom(cfg, start, log, c, |log|) == {}
  {
  }

  lemma {:induction false} OpenFromBounded(cfg: Config, start: State, log: seq<ParsedFrame>, c: nat)
    ensures OpenFrom(cfg, start, log, c).Some? ==> OpenFrom(cfg, start, log, c).value <= |log|
  {
    hide ClosedBy, Fires, Run;
    if log != [] {
      OpenFromBounded(cfg, start, log[..|log| - 1], c);
    }
  }

  lemma OpenFromSnoc(cfg: Config, start: State, log: seq<ParsedFrame>, f: ParsedFrame, c: nat)
    ensures var s := Run(cfg, start, log);
      OpenFrom(cfg, start, log + [f], c) ==
        if ClosedBy(cfg, s, f, c) == [] then OpenFrom(cfg, start, log, c)
        else if Fires(cfg, s, f) then Some(|log| + 1) else Some(|log|)
  {
    hide ClosedBy, Fires, Run;
    assert (log + [f])[..|log|] == log;
  }

  lemma CountsRelevant(cfg: Config, s: State, f: ParsedFrame, c: nat)
    requires Counts(cfg, s, f, c)
    ensures Relevant(f) && f.channel == c
  {
  }

  /** One frame keeps the open window in step. */
  lemma OpenWindowNext(cfg: Config, start: State, log: seq<ParsedFrame>, f: ParsedFrame, c: nat)
    requires Relevant(f) ==> !Sweeping(Run(cfg, start, log))
    requires Current(Run(cfg, start, log), c) == OpenWindow(cfg, start, log, c)
    ensures Current(Step(cfg, Run(cfg, start, log), f), c) == OpenWindow(cfg, start, log + [f], c)
  {
    hide KeyOf, ClosedBy, Step, Sweeping, Fires, Late, Current, Run, CountedFrom, OpenFrom, Counts;
    var s := Run(cfg, start, log);
    OpenFromSnoc(cfg, start, log, f, c);
    OpenFromBounded(cfg, start, log, c);
    CountedBeyond(cfg, start, log, c);
    CountedBeyond(cfg, start, log + [f], c);
    CountedSnoc(cfg, start, log, f, c, 0);
    CountedSnoc(cfg, start, log, f, c, |log|);
    if OpenFrom(cfg, start, log, c).Some? {
      CountedSnoc(cfg, start, log, f, c, OpenFrom(cfg, start, log, c).value);
    }
    if Counts(cfg, s, f, c) {
      CountsRelevant(cfg, s, f, c);
      CountedShape(cfg, s, f, c);
    } else {
      OtherShape(cfg, s, f, c);
    }
  }

  lemma NothingOpen(cfg: Config, start: State, c: nat)
    ensures OpenWindow(cfg, start, [], c) == Current(start, c)
  {
  }

  /** In any run segment without a cleanup pass the open window of a channel holds what was counted since it began. */
  lemma {:induction false} CurrentIsOpenWindow(cfg: Config, start: State, log: seq<ParsedFrame>, c: nat)
    requires NoCleanup(cfg, start, log)
    ensures Current(Run(cfg, start, log), c) == OpenWindow(cfg, start, log, c)
  {
    hide Step, Current, NoCleanup, OpenWindow;
    if log != [] {
      var before, f := log[..|log| - 1], log[|log| - 1];
      NoCleanupPrefix(cfg, start, log);
      CurrentIsOpenWindow(cfg, start, before, c);
      OpenWindowNext(cfg, start, before, f, c);
      assert before + [f] == log;
    } else {
      NothingOpen(cfg, start, c);
    }
  }

  ghost function Times(log: seq<ParsedFrame>): seq<Time> {
    if log == [] then []
    else
      var before, f := Times(log[..|log| - 1]), log[|log| - 1];
      if Relevant(f) then before + [f.timestamp] else before
  }

  /** When the rule started: before the segment, or at its first beacon with a timestamp. */
  ghost function StartTime(start: State, log: seq<ParsedFrame>): Time {
    if start.startedAt != 0 then start.startedAt else FirstNonZero(Times(log))
  }

  lemma StepStarts(cfg: Config, s: State, f: ParsedFrame)
    ensures Step(cfg, s, f).startedAt == if s.startedAt == 0 && Relevant(f) then f.timestamp else s.startedAt
    ensures Relevant(f) ==> Entered(cfg, s, f.timestamp).startedAt == Step(cfg, s, f).startedAt
  {
    hide KeyOf, Grown, Promoted, Active;
  }

  lemma {:induction false} StartedAtIs(cfg: Config, start: State, log: seq<ParsedFrame>)
    ensures Run(cfg, start, log).startedAt == StartTime(start, log)
  {
    hide Step, Relevant;
    if log != [] {
      var before, f := log[..|log| - 1], log[|log| - 1];
      StartedAtIs(cfg, start, before);
      StepStarts(cfg, Run(cfg, start, before), f);
      FirstNonZeroSnoc(Times(before), f.timestamp);
    }
  }

  /** The members of the windows of a list. */
  ghost function MembersOf(ws: seq<Window>): set<string> {
    if ws == [] then {} else MembersOf(ws[..|ws| - 1]) + ws[|ws| - 1].members
  }

  ghost predicate Learning(cfg: Config, start: State, log: seq<ParsedFrame>, f: ParsedFrame) {
    f.timestamp - StartTime(start, log + [f]) < cfg.learningPeriod
  }

  /** What the rule knows: what it knew, what it saw while learning, and every BSSID of a window it closed. */
  ghost function Knowledge(cfg: Config, start: State, log: seq<ParsedFrame>): set<string> {
    if log == [] then start.known.Keys
    else
      var before, f := log[..|log| - 1], log[|log| - 1];
      Knowledge(cfg, start, before)
      + (if Relevant(f) && Learning(cfg, start, before, f) then {KeyOf(f)} else {})
      + MembersOf(ClosedBy(cfg, Run(cfg, start, before), f, f.channel))
  }

  lemma MembersOfPair(a: Window, b: Window)
    ensures MembersOf([a] + [b]) == a.members + b.members && MembersOf([a]) == a.members && MembersOf([]) == {}
    ensures MembersOf([] + [b]) == b.members
  {
    assert [a][..0] == [] && [b][..0] == [];
    assert ([a] + [b])[..1] == [a] && ([a] + [b])[1] == b && [] + [b] == [b];
    assert MembersOf([a]) == MembersOf([]) + a.members;
  }

  /** A frame counts when learning is over and its BSSID is not known. */
  lemma CountsIff(cfg: Config, start: State, log: seq<ParsedFrame>, f: ParsedFrame, c: nat)
    requires Relevant(f) ==> !Sweeping(Run(cfg, start, log))
    ensures Counts(cfg, Run(cfg, start, log), f, c) <==>
      && f.frameType == Beacon && f.bssid.Some? && f.channel == c
      && !Learning(cfg, start, log, f) && KeyOf(f) !in Run(cfg, start, log).known.Keys
  {
    hide Run, KeyOf, StartTime, Step, Sweeping, Entered;
    if Relevant(f) {
      var s := Run(cfg, start, log);
      EnteredKeeps(cfg, s, f.timestamp);
      StartedAtIs(cfg, start, log + [f]);
      RunSnoc(cfg, start, log, f);
      StepStarts(cfg, s, f);
    }
  }

  lemma FamiliarKnown(cfg: Config, s: State, f: ParsedFrame)
    requires Relevant(f) && !Sweeping(s) && !Counts(cfg, s, f, f.channel)
    ensures Step(cfg, s, f).known.Keys == s.known.Keys + {KeyOf(f)}
  {
    hide KeyOf, Grown;
  }

  lemma IrrelevantKnown(cfg: Config, s: State, f: ParsedFrame)
    requires !Relevant(f)
    ensures Step(cfg, s, f) == s
  {
  }

  /** What one frame adds to what is known. */
  lemma KnownNext(cfg: Config, start: State, log: seq<ParsedFrame>, f: ParsedFrame)
    requires Relevant(f) ==> !Sweeping(Run(cfg, start, log))
    ensures var s := Run(cfg, start, log);
      Step(cfg, s, f).known.Keys
      == s.known.Keys + (if Relevant(f) && Learning(cfg, start, log, f) then {KeyOf(f)} else {})
         + MembersOf(ClosedBy(cfg, s, f, f.channel))
  {
    hide Run, KeyOf, Step, Sweeping, Learning, ClosedBy, Fires, Late, Members, Counts, Current, MembersOf;
    var s, c := Run(cfg, start, log), f.channel;
    CountsIff(cfg, start, log, f, c);
    MembersOfPair(Window({}, Fired), Window({}, Fired));
    if Counts(cfg, s, f, c) {
      CountedShape(cfg, s, f, c);
      MembersOfPair(Window(Current(s, c), TimedOut(KeyOf(f))), Window(Members(cfg, s, f), Fired));
    } else {
      OtherShape(cfg, s, f, c);
      if Relevant(f) {
        FamiliarKnown(cfg, s, f);
      } else {
        IrrelevantKnown(cfg, s, f);
      }
    }
  }

  /** In a segment without a cleanup pass the rule knows exactly what it knew, learned or closed a window of. */
  lemma {:induction false} KnownIsKnowledge(cfg: Config, start: State, log: seq<ParsedFrame>)
    requires NoCleanup(cfg, start, log)
    ensures Run(cfg, start, log).known.Keys == Knowledge(cfg, start, log)
  {
    hide Step, NoCleanup, Learning, ClosedBy, KeyOf, MembersOf, Relevant, Sweeping;
    if log != [] {
      var before, f := log[..|log| - 1], log[|log| - 1];
      NoCleanupPrefix(cfg, start, log);
      KnownIsKnowledge(cfg, start, before);
      KnownNext(cfg, start, before, f);
    }
  }

  /** When the open window of channel `c` began: at the last frame to close a window, else at the first counted one. */
  ghost function Began(cfg: Config, start: State, log: seq<ParsedFrame>, c: nat): Option<Time> {
    if log == [] then (if c in start.channels then Some(start.channels[c].windowStart) else None)
    else
      var before, f := log[..|log| - 1], log[|log| - 1];
      var s, began := Run(cfg, start, before), Began(cfg, start, before, c);
      if Counts(cfg, s, f, c) && (began.None? || ClosedBy(cfg, s, f, c) != []) then Some(f.timestamp) else began
  }

  ghost function WindowStart(s: State, c: nat): Option<Time> {
    if c in s.channels then Some(s.channels[c].windowStart) else None
  }

  lemma StartNext(cfg: Config, s: State, f: ParsedFrame, c: nat)
    requires Relevant(f) ==> !Sweeping(s)
    ensures WindowStart(Step(cfg, s, f), c) ==
      if Counts(cfg, s, f, c) && (WindowStart(s, c).None? || ClosedBy(cfg, s, f, c) != [])
      then Some(f.timestamp) else WindowStart(s, c)
  {
    hide KeyOf;
  }

  lemma {:induction false} WindowBegan(cfg: Config, start: State, log: seq<ParsedFrame>, c: nat)
    requires NoCleanup(cfg, start, log)
    ensures WindowStart(Run(cfg, start, log), c) == Began(cfg, start, log, c)
  {
    hide Step, NoCleanup, ClosedBy, Counts, Relevant, Sweeping;
    if log != [] {
      var before, f := log[..|log| - 1], log[|log| - 1];
      NoCleanupPrefix(cfg, start, log);
      WindowBegan(cfg, start, before, c);
      StartNext(cfg, Run(cfg, start, before), f, c);
    }
  }

  /** The window that a counting frame extends: empty again when the open one began more than the window length ago. */
  ghost function Extended(cfg: Config, start: State, log: seq<ParsedFrame>, f: ParsedFrame): set<string>
    requires Relevant(f)
  {
    var began := Began(cfg, start, log, f.channel);
    (if began.Some? && f.timestamp - began.value > cfg.window then {} else OpenWindow(cfg, start, log, f.channel))
    + {KeyOf(f)}
  }

  /**
   * The frame raises an event by what was seen before it: learning is over, its BSSID is not known, and with
   * it the open window of its channel, or a new one when that has expired, reaches the threshold.
   */
  ghost predicate Fills(cfg: Config, start: State, log: seq<ParsedFrame>, f: ParsedFrame) {
    && Relevant(f) && !Learning(cfg, start, log, f) && KeyOf(f) !in Knowledge(cfg, start, log)
    && |Extended(cfg, start, log, f)| >= cfg.threshold
  }

  lemma IrrelevantFires(cfg: Config, s: State, f: ParsedFrame)
    requires !Relevant(f)
    ensures !Fires(cfg, s, f)
  {
  }

  lemma FiresWhenFull(cfg: Config, s: State, f: ParsedFrame)
    requires Relevant(f) && !Sweeping(s) && Counts(cfg, s, f, f.channel)
    ensures Fires(cfg, s, f) <==> |Members(cfg, s, f)| >= cfg.threshold
    ensures Late(cfg, s, f) <==>
      var began := WindowStart(s, f.channel); began.Some? && f.timestamp - began.value > cfg.window
  {
    hide KeyOf, Grown, Members, Entered;
    CountedKeys(cfg, s, f, f.channel);
  }

  /** Events in terms of the frames seen, in any segment without a cleanup pass. */
  lemma FiresIff(cfg: Config, start: State, log: seq<ParsedFrame>, f: ParsedFrame)
    requires NoCleanup(cfg, start, log + [f])
    ensures Fires(cfg, Run(cfg, start, log), f) <==> Fills(cfg, start, log, f)
  {
    hide KeyOf, Fires, Run, Learning, Knowledge, Began, OpenWindow, Counts, Current, Sweeping;
    var s, c := Run(cfg, start, log), f.channel;
    assert (log + [f])[..|log|] == log && (log + [f])[|log|] == f;
    NoCleanupPrefix(cfg, start, log + [f]);
    if Relevant(f) {
      CountsIff(cfg, start, log, f, c);
      KnownIsKnowledge(cfg, start, log);
      CurrentIsOpenWindow(cfg, start, log, c);
      WindowBegan(cfg, start, log, c);
      if Counts(cfg, s, f, c) {
        FiresWhenFull(cfg, s, f);
      } else {
        OtherShape(cfg, s, f, c);
      }
    } else {
      IrrelevantFires(cfg, s, f);
    }
  }

  // ---- What an event says of the frames of its window ----

  /** The frames from frame `k` on that brought a new BSSID to channel `c`. */
  ghost function FramesFrom(cfg: Config, start: State, log: seq<ParsedFrame>, c: nat, k: nat): seq<ParsedFrame> {
    if |log| <= k then []
    else
      var before, f := log[..|log| - 1], log[|log| - 1];
      FramesFrom(cfg, start, before, c, k) + if Counts(cfg, Run(cfg, start, before), f, c) then [f] else []
  }

  /** The frames counted on channel `c` since its open window began. */
  ghost function OpenFrames(cfg: Config, start: State, log: seq<ParsedFrame>, c: nat): seq<ParsedFrame> {
    FramesFrom(cfg, start, log, c, match OpenFrom(cfg, start, log, c) case None => 0 case Some(k) => k)
  }

  /** Those with one signal strength. */
  ghost function Carrying(h: seq<ParsedFrame>, r: int): set<nat> { set i: nat | i < |h| && h[i].rssi == r }

  ghost function Named(h: seq<ParsedFrame>): set<string> {
    set i: nat | i < |h| && h[i].ssid != "" :: h[i].ssid
  }

  /** Frame `i` names an SSID, and the frames before it fewer than five. */
  ghost predicate SampledAt(h: seq<ParsedFrame>, i: nat) {
    i < |h| && h[i].ssid != "" && |Named(h[..i])| < 5
  }

  /** The SSIDs that the frames carry, up to the fifth different one. */
  ghost function Samples(h: seq<ParsedFrame>): set<string> {
    set i: nat | i < |h| && SampledAt(h, i) :: h[i].ssid
  }

  /** A window counts the frames `h`, one by one and by signal strength, and samples their SSIDs. */
  ghost predicate Summarises(w: Chan, h: seq<ParsedFrame>) {
    && w.beaconCount == |h|
    && (forall r :: Count(w.rssiCounts, r) == |Carrying(h, r)|)
    && w.sampleSSIDs == Samples(h)
  }

  lemma CarryingSnoc(h: seq<ParsedFrame>, f: ParsedFrame, r: int)
    ensures |Carrying(h + [f], r)| == |Carrying(h, r)| + if f.rssi == r then 1 else 0
  {
    assert Carrying(h + [f], r) == Carrying(h, r) + if f.rssi == r then {|h|} else {};
  }

  lemma NamedSnoc(h: seq<ParsedFrame>, f: ParsedFrame)
    ensures Named(h + [f]) == Named(h) + if f.ssid != "" then {f.ssid} else {}
  {
    assert (h + [f])[|h|] == f;
    assert forall i :: 0 <= i < |h| ==> (h + [f])[i] == h[i];
  }

  lemma SampledAtSnoc(h: seq<ParsedFrame>, f: ParsedFrame)
    ensures forall i: nat :: i < |h| ==> (SampledAt(h + [f], i) <==> SampledAt(h, i)) && (h + [f])[i] == h[i]
    ensures SampledAt(h + [f], |h|) <==> f.ssid != "" && |Named(h)| < 5
  {
    hide Named;
    assert (h + [f])[|h|] == f && (h + [f])[..|h|] == h;
    forall i: nat | i < |h| ensures SampledAt(h + [f], i) <==> SampledAt(h, i) {
      assert (h + [f])[i] == h[i] && (h + [f])[..i] == h[..i];
    }
  }

  lemma SamplesSnoc(h: seq<ParsedFrame>, f: ParsedFrame)
    ensures Samples(h + [f]) == Samples(h) + if f.ssid != "" && |Named(h)| < 5 then {f.ssid} else {}
  {
    hide SampledAt;
    SampledAtSnoc(h, f);
    assert (h + [f])[|h|] == f;
  }

  lemma NothingNamed()
    ensures Named([]) == {} && Samples([]) == {} && forall r :: Carrying([], r) == {}
  {
  }

  /** As long as fewer than five SSIDs are named all of them are sampled. */
  lemma {:induction false} SamplesFill(h: seq<ParsedFrame>)
    ensures |Named(h)| < 5 ==> Samples(h) == Named(h)
    ensures |Samples(h)| < 5 <==> |Named(h)| < 5
  {
    hide Named, Samples;
    if h != [] {
      var init, f := h[..|h| - 1], h[|h| - 1];
      assert init + [f] == h;
      SamplesFill(init);
      NamedSnoc(init, f);
      SamplesSnoc(init, f);
      SubsetSize(Named(init), Named(h));
    } else {
      NothingNamed();
    }
  }

  lemma ResetSummarises(now: Time)
    ensures Summarises(Reset(now), [])
  {
    NothingNamed();
  }

  lemma AddSummarises(st: Chan, b: string, f: ParsedFrame, h: seq<ParsedFrame>)
    requires Summarises(st, h)
    ensures Summarises(Add(st, b, f), h + [f])
  {
    hide Carrying, Named, Samples;
    SamplesSnoc(h, f);
    SamplesFill(h);
    forall r ensures Count(Add(st, b, f).rssiCounts, r) == |Carrying(h + [f], r)| {
      CarryingSnoc(h, f, r);
    }
  }

  /** What one frame makes of the channel's window. */
  lemma ChanNext(cfg: Config, s: State, f: ParsedFrame, c: nat)
    requires Relevant(f) ==> !Sweeping(s)
    ensures var s' := Step(cfg, s, f);
      if !Counts(cfg, s, f, c) then
        (c in s'.channels <==> c in s.channels) && (c in s.channels ==> s'.channels[c] == s.channels[c])
      else
        && Grown(cfg, Entered(cfg, s, f.timestamp), f)
           == Add(if c in s.channels && !Late(cfg, s, f) then s.channels[c] else Reset(f.timestamp), KeyOf(f), f)
        && c in s'.channels
        && s'.channels[c] == if Fires(cfg, s, f) then Reset(f.timestamp)
                             else Grown(cfg, Entered(cfg, s, f.timestamp), f)
  {
    hide KeyOf, Add;
  }

  ghost predicate Holds(s: State, c: nat, h: seq<ParsedFrame>) {
    if c in s.channels then Summarises(s.channels[c], h) else h == []
  }

  /** The frames that a counting frame joins. */
  ghost function Joined(cfg: Config, s: State, f: ParsedFrame, h: seq<ParsedFrame>): seq<ParsedFrame> {
    if Late(cfg, s, f) then [] else h
  }

  lemma GrownSummarises(cfg: Config, s: State, f: ParsedFrame, c: nat, h: seq<ParsedFrame>)
    requires !Sweeping(s) && Counts(cfg, s, f, c) && Holds(s, c, h)
    ensures Summarises(Grown(cfg, Entered(cfg, s, f.timestamp), f), Joined(cfg, s, f, h) + [f])
  {
    hide KeyOf, Add, Grown, Late, Step, Entered, Summarises, Familiar, Fires, Sweeping;
    ChanNext(cfg, s, f, c);
    ResetSummarises(f.timestamp);
    if c in s.channels && !Late(cfg, s, f) {
      AddSummarises(s.channels[c], KeyOf(f), f, h);
    } else {
      AddSummarises(Reset(f.timestamp), KeyOf(f), f, []);
    }
  }

  lemma FramesSnoc(cfg: Config, start: State, log: seq<ParsedFrame>, f: ParsedFrame, c: nat, k: nat)
    ensures FramesFrom(cfg, start, log + [f], c, k) ==
      if |log| + 1 <= k then []
      else FramesFrom(cfg, start, log, c, k) + if Counts(cfg, Run(cfg, start, log), f, c) then [f] else []
    ensures FramesFrom(cfg, start, log, c, |log|) == []
  {
    hide Counts, Run;
    assert (log + [f])[..|log|] == log;
  }

  lemma OpenFramesNext(cfg: Config, start: State, log: seq<ParsedFrame>, f: ParsedFrame, c: nat)
    requires Relevant(f) ==> !Sweeping(Run(cfg, start, log))
    ensures var s, h := Run(cfg, start, log), OpenFrames(cfg, start, log, c);
      OpenFrames(cfg, start, log + [f], c) ==
        if !Counts(cfg, s, f, c) then h else if Fires(cfg, s, f) then [] else Joined(cfg, s, f, h) + [f]
  {
    hide KeyOf, ClosedBy, Step, Sweeping, Fires, Late, Current, Run, FramesFrom, OpenFrom, Counts, Members;
    var s := Run(cfg, start, log);
    OpenFromSnoc(cfg, start, log, f, c);
    OpenFromBounded(cfg, start, log, c);
    FramesSnoc(cfg, start, log, f, c, 0);
    FramesSnoc(cfg, start, log, f, c, |log|);
    FramesSnoc(cfg, start, log, f, c, |log| + 1);
    if OpenFrom(cfg, start, log, c).Some? {
      FramesSnoc(cfg, start, log, f, c, OpenFrom(cfg, start, log, c).value);
    }
    if Counts(cfg, s, f, c) {
      CountsRelevant(cfg, s, f, c);
      CountedShape(cfg, s, f, c);
    } else {
      OtherShape(cfg, s, f, c);
    }
  }

  lemma HoldsNext(cfg: Config, s: State, f: ParsedFrame, c: nat, h: seq<ParsedFrame>)
    requires (Relevant(f) ==> !Sweeping(s)) && Holds(s, c, h)
    ensures Holds(Step(cfg, s, f), c,
                  if !Counts(cfg, s, f, c) then h else if Fires(cfg, s, f) then [] else Joined(cfg, s, f, h) + [f])
  {
    hide KeyOf, Add, Grown, Late, Step, Entered, Summarises, Counts, Fires, Sweeping, Joined;
    ChanNext(cfg, s, f, c);
    if Counts(cfg, s, f, c) {
      CountsRelevant(cfg, s, f, c);
      GrownSummarises(cfg, s, f, c, h);
      ResetSummarises(f.timestamp);
    }
  }

  lemma NothingHeld(cfg: Config, start: State, c: nat)
    requires c !in start.channels
    ensures Holds(Run(cfg, start, []), c, OpenFrames(cfg, start, [], c))
  {
  }

  /** In a segment without a cleanup pass the open window counts exactly the frames counted since it began. */
  lemma {:induction false} WindowSummarises(cfg: Config, start: State, log: seq<ParsedFrame>, c: nat)
    requires NoCleanup(cfg, start, log) && c !in start.channels
    ensures Holds(Run(cfg, start, log), c, OpenFrames(cfg, start, log, c))
  {
    hide Step, NoCleanup, OpenFrames, Holds, Counts, Fires, Joined, Relevant, Sweeping;
    if log != [] {
      var before, f := log[..|log| - 1], log[|log| - 1];
      NoCleanupPrefix(cfg, start, log);
      WindowSummarises(cfg, start, before, c);
      OpenFramesNext(cfg, start, before, f, c);
      HoldsNext(cfg, Run(cfg, start, before), f, c, OpenFrames(cfg, start, before, c));
      assert before + [f] == log;
    } else {
      NothingHeld(cfg, start, c);
    }
  }

  /** The frames of the window that a counting frame extends. */
  ghost function ExtendedFrames(cfg: Config, start: State, log: seq<ParsedFrame>, f: ParsedFrame): seq<ParsedFrame> {
    var began := Began(cfg, start, log, f.channel);
    (if began.Some? && f.timestamp - began.value > cfg.window then [] else OpenFrames(cfg, start, log, f.channel)) + [f]
  }

  lemma FiresCounts(cfg: Config, s: State, f: ParsedFrame)
    requires Fires(cfg, s, f)
    ensures Counts(cfg, s, f, f.channel)
  {
  }

  /** The value holding 80% of the frames of a window. */
  lemma DominantCarried(w: Chan, h: seq<ParsedFrame>, r: int)
    requires h != [] && Summarises(w, h) && Sum(w.rssiCounts) == w.beaconCount
    ensures Dominant(w.rssiCounts, w.beaconCount) == Some(r) <==> 100 * |Carrying(h, r)| >= 80 * |h|
  {
    hide Sum;
    var m := w.rssiCounts;
    assert Count(m, r) == |Carrying(h, r)|;
    assert Holds80(m, w.beaconCount, r) <==> 100 * |Carrying(h, r)| >= 80 * |h|;
    if Holds80(m, w.beaconCount, r) {
      DominantUnique(m, r, Dominant(m, w.beaconCount).value);
    }
  }

  lemma GrownStart(cfg: Config, s: State, f: ParsedFrame)
    requires Relevant(f) && !Sweeping(s)
    ensures var w, began := Grown(cfg, Entered(cfg, s, f.timestamp), f), WindowStart(s, f.channel);
      w.windowStart == if began.None? || Late(cfg, s, f) then f.timestamp else began.value
  {
    hide KeyOf;
  }

  /** The window that an event closes, and the frames it counts. */
  lemma FiredSummarises(cfg: Config, start: State, log: seq<ParsedFrame>, f: ParsedFrame)
    requires NoCleanup(cfg, start, log + [f]) && f.channel !in start.channels
    requires Fires(cfg, Run(cfg, start, log), f)
    ensures var w := Grown(cfg, Entered(cfg, Run(cfg, start, log), f.timestamp), f);
      && Summarises(w, ExtendedFrames(cfg, start, log, f)) && ExtendedFrames(cfg, start, log, f) != []
      && var began := Began(cfg, start, log, f.channel);
         w.windowStart == if began.None? || f.timestamp - began.value > cfg.window then f.timestamp else began.value
  {
    hide KeyOf, Run, Fires, Counts, Sweeping, Grown, Entered, Began, OpenFrames, Summarises, Late, NoCleanup, Holds;
    var s, c := Run(cfg, start, log), f.channel;
    assert (log + [f])[..|log|] == log && (log + [f])[|log|] == f;
    NoCleanupPrefix(cfg, start, log + [f]);
    FiresCounts(cfg, s, f);
    CountsRelevant(cfg, s, f, c);
    FiresWhenFull(cfg, s, f);
    WindowBegan(cfg, start, log, c);
    WindowSummarises(cfg, start, log, c);
    GrownSummarises(cfg, s, f, c, OpenFrames(cfg, start, log, c));
    GrownStart(cfg, s, f);
  }

  lemma EventForWindow(f: ParsedFrame, w: Chan, h: seq<ParsedFrame>)
    requires h != [] && Summarises(w, h) && Sum(w.rssiCounts) == w.beaconCount
    ensures var e := EventFor(f, w);
      && e.timestamp == f.timestamp && e.severity == Severity.Warning && e.srcMAC == f.srcMAC && e.bssid == f.bssid
      && e.channel == f.channel && e.rssi == f.rssi && e.duration == f.timestamp - w.windowStart
      && e.newBSSIDCount == |w.newBSSIDs| && e.frameCount == |h| && e.sampleSSIDs == Samples(h)
      && forall r :: e.commonRSSI == Some(r) <==> 100 * |Carrying(h, r)| >= 80 * |h|
  {
    hide Dominant, Sum, Carrying, Samples;
    forall r ensures Dominant(w.rssiCounts, w.beaconCount) == Some(r) <==> 100 * |Carrying(h, r)| >= 80 * |h| {
      DominantCarried(w, h, r);
    }
  }

  lemma EmittedIs(cfg: Config, s: State, f: ParsedFrame)
    requires Inv(cfg, s) && Fires(cfg, s, f)
    ensures var w := Grown(cfg, Entered(cfg, s, f.timestamp), f);
      Emitted(cfg, s, f) == Some(EventFor(f, w)) && |w.newBSSIDs| == cfg.threshold && Sum(w.rssiCounts) == w.beaconCount
  {
    hide KeyOf, Grown, Sum, Dominant;
    GrownInv(cfg, Entered(cfg, s, f.timestamp), f);
  }

  /**
   * An event, in a segment without a cleanup pass, read off the frames of the window it closes: how many
   * there were, since when, which SSIDs they carry, and the signal strength of four fifths of them.
   */
  lemma EventSays(cfg: Config, start: State, log: seq<ParsedFrame>, f: ParsedFrame)
    requires NoCleanup(cfg, start, log + [f]) && Inv(cfg, start) && f.channel !in start.channels
    requires Fires(cfg, Run(cfg, start, log), f)
    ensures var e, h := Emitted(cfg, Run(cfg, start, log), f).value, ExtendedFrames(cfg, start, log, f);
      && e.timestamp == f.timestamp && e.severity == Severity.Warning && e.srcMAC == f.srcMAC && e.bssid == f.bssid
      && e.channel == f.channel && e.rssi == f.rssi
      && e.newBSSIDCount == cfg.threshold && e.frameCount == |h| && e.sampleSSIDs == Samples(h)
      && (forall r :: e.commonRSSI == Some(r) <==> 100 * |Carrying(h, r)| >= 80 * |h|)
      && var began := Began(cfg, start, log, f.channel);
         e.duration == if began.None? || f.timestamp - began.value > cfg.window then 0 else f.timestamp - began.value
  {
    hide KeyOf, Run, Fires, Sweeping, Grown, Entered, Began, ExtendedFrames, Summarises, Sum, Carrying, Samples;
    hide EventFor, Emitted, Inv, NoCleanup, Counts;
    var s := Run(cfg, start, log);
    FiresCounts(cfg, s, f);
    CountsRelevant(cfg, s, f, f.channel);
    FiredSummarises(cfg, start, log, f);
    RunInv(cfg, start, log);
    EmittedIs(cfg, s, f);
    EventForWindow(f, Grown(cfg, Entered(cfg, s, f.timestamp), f), ExtendedFrames(cfg, start, log, f));
  }

  // ---- Events count distinct BSSIDs ----

  ghost function FiredUnion(ws: seq<Window>): set<string> {
    if ws == [] then {}
    else FiredUnion(ws[..|ws| - 1]) + (if ws[|ws| - 1].closing.Fired? then ws[|ws| - 1].members else {})
  }

  ghost function FiredCount(ws: seq<Window>): nat {
    if ws == [] then 0 else FiredCount(ws[..|ws| - 1]) + (if ws[|ws| - 1].closing.Fired? then 1 else 0)
  }

  /** Events raised on channel `c`. */
  ghost function EventCount(cfg: Config, start: State, log: seq<ParsedFrame>, c: nat): nat {
    if log == [] then 0
    else
      var before, f := log[..|log| - 1], log[|log| - 1];
      EventCount(cfg, start, before, c) + (if f.channel == c && Fires(cfg, Run(cfg, start, before), f) then 1 else 0)
  }

  ghost function SeenBy(f: ParsedFrame, c: nat): set<string> {
    if Relevant(f) && f.channel == c then {KeyOf(f)} else {}
  }

  /** BSSIDs of the beacons seen on channel `c`. */
  ghost function SeenOn(log: seq<ParsedFrame>, c: nat): set<string> {
    if log == [] then {}
    else
      var f := log[|log| - 1];
      SeenOn(log[..|log| - 1], c) + SeenBy(f, c)
  }

  ghost predicate Sound(cfg: Config, ws: seq<Window>, seen: set<string>) {
    forall i :: 0 <= i < |ws| ==> ws[i].members <= seen && (ws[i].closing.Fired? ==> |ws[i].members| == cfg.threshold)
  }

  lemma {:induction false} FiredDisjointUpTo(ws: seq<Window>, n: nat, m: nat)
    requires m <= n < |ws| && AlmostDisjoint(ws)
    ensures FiredUnion(ws[..m]) !! ws[n].members
  {
    if m > 0 {
      FiredDisjointUpTo(ws, n, m - 1);
      assert ws[..m][..m - 1] == ws[..m - 1];
      assert MeetsOnlyNext(ws, m - 1, n);
      assert ws[..m][m - 1] == ws[m - 1];
      if ws[m - 1].closing.Fired? {
        assert Shared(ws[m - 1]) == {};
        forall b | b in ws[m - 1].members ensures b !in ws[n].members {
          assert b !in ws[m - 1].members * ws[n].members;
        }
      }
    }
  }

  lemma AlmostDisjointPrefix(ws: seq<Window>, n: nat)
    requires n <= |ws| && AlmostDisjoint(ws)
    ensures AlmostDisjoint(ws[..n])
  {
    forall i, j | 0 <= i < j < n ensures MeetsOnlyNext(ws[..n], i, j) { assert MeetsOnlyNext(ws, i, j); }
  }

  lemma AddDisjoint(a: set<string>, b: set<string>, n: nat, k: nat)
    requires a !! b && |a| == n * k && |b| == n
    ensures |a + b| == n * (k + 1)
  {
    assert n * (k + 1) == n * k + n;
  }

  /** The windows that raised events are pairwise disjoint, so their sizes add up. */
  lemma {:induction false} FiredSizes(cfg: Config, ws: seq<Window>, seen: set<string>)
    requires AlmostDisjoint(ws) && Sound(cfg, ws, seen)
    ensures |FiredUnion(ws)| == cfg.threshold * FiredCount(ws) && FiredUnion(ws) <= seen
  {
    if ws != [] {
      hide AlmostDisjoint;
      var init, w := ws[..|ws| - 1], ws[|ws| - 1];
      AlmostDisjointPrefix(ws, |init|);
      FiredSizes(cfg, init, seen);
      FiredDisjointUpTo(ws, |init|, |init|);
      if w.closing.Fired? {
        AddDisjoint(FiredUnion(init), w.members, cfg.threshold, FiredCount(init));
      } else {
        assert FiredUnion(init) + {} == FiredUnion(init);
      }
    }
  }

  lemma FiredCountAppend(ws: seq<Window>, vs: seq<Window>)
    ensures FiredCount(ws + vs) == FiredCount(ws) + FiredCount(vs)
    decreases |vs|
  {
    if vs == [] {
      assert ws + vs == ws;
    } else {
      assert (ws + vs)[..|ws + vs| - 1] == ws + vs[..|vs| - 1];
      FiredCountAppend(ws, vs[..|vs| - 1]);
    }
  }

  lemma FiredCountPair(late: Window, full: Window)
    requires late.closing.TimedOut? && full.closing.Fired?
    ensures FiredCount([late] + [full]) == 1 && FiredCount([] + [full]) == 1 && FiredCount([late]) == 0
  {
    FiredCountAppend([late], [full]);
    assert [] + [full] == [full];
  }

  lemma MembersBounded(cfg: Config, s: State, f: ParsedFrame, c: nat)
    requires Inv(cfg, s) && Relevant(f) && f.channel == c
    ensures |Members(cfg, s, f)| <= cfg.threshold
  {
    hide KeyOf;
    assert |Current(s, c)| < cfg.threshold;
  }

  lemma CountedSeen(cfg: Config, s: State, f: ParsedFrame, c: nat)
    requires Counts(cfg, s, f, c)
    ensures Members(cfg, s, f) <= Current(s, c) + SeenBy(f, c)
  {
    hide KeyOf;
  }

  lemma SoundOne(cfg: Config, w: Window, seen: set<string>)
    requires w.members <= seen && (w.closing.Fired? ==> |w.members| == cfg.threshold)
    ensures Sound(cfg, [w], seen) && Sound(cfg, [], seen)
  {
  }

  lemma SoundAppend(cfg: Config, ws: seq<Window>, vs: seq<Window>, seen: set<string>, more: set<string>)
    requires Sound(cfg, ws, seen) && Sound(cfg, vs, more) && seen <= more
    ensures Sound(cfg, ws + vs, more)
  {
  }

  /** A counted frame closes at most the old window and the grown one, and both hold only what can be counted. */
  lemma CountedSound(cfg: Config, s: State, f: ParsedFrame, c: nat, seen: set<string>)
    requires Inv(cfg, s) && !Sweeping(s) && Current(s, c) <= seen && Counts(cfg, s, f, c)
    ensures Sound(cfg, ClosedBy(cfg, s, f, c), seen + SeenBy(f, c))
    ensures Current(Step(cfg, s, f), c) <= seen + SeenBy(f, c)
  {
    hide KeyOf, ClosedBy, Step, Sweeping, Fires, Late, Inv, Current, Sound, Members, SeenBy;
    var cur, grown, more := Current(s, c), Members(cfg, s, f), seen + SeenBy(f, c);
    CountedShape(cfg, s, f, c);
    MembersBounded(cfg, s, f, c);
    CountedSeen(cfg, s, f, c);
    var late := if Late(cfg, s, f) then [Window(cur, TimedOut(KeyOf(f)))] else [];
    SoundOne(cfg, Window(cur, TimedOut(KeyOf(f))), more);
    if Fires(cfg, s, f) {
      SoundOne(cfg, Window(grown, Fired), more);
      SoundAppend(cfg, late, [Window(grown, Fired)], more, more);
    }
  }

  /** A frame closes a full window exactly when it raises an event. */
  lemma StepCountsEvent(cfg: Config, s: State, f: ParsedFrame, c: nat)
    requires Relevant(f) ==> !Sweeping(s)
    ensures FiredCount(ClosedBy(cfg, s, f, c)) == if f.channel == c && Fires(cfg, s, f) then 1 else 0
  {
    hide KeyOf, ClosedBy, Step, Sweeping, Fires, Late, Current;
    if Counts(cfg, s, f, c) {
      CountedShape(cfg, s, f, c);
      FiredCountPair(Window(Current(s, c), TimedOut(KeyOf(f))), Window(Members(cfg, s, f), Fired));
    } else {
      OtherShape(cfg, s, f, c);
    }
  }

  lemma StepSound(cfg: Config, s: State, f: ParsedFrame, c: nat, seen: set<string>)
    requires Inv(cfg, s) && (Relevant(f) ==> !Sweeping(s)) && Current(s, c) <= seen
    ensures Sound(cfg, ClosedBy(cfg, s, f, c), seen + SeenBy(f, c))
    ensures Current(Step(cfg, s, f), c) <= seen + SeenBy(f, c)
  {
    hide KeyOf, ClosedBy, Step, Sweeping, Fires, Late, Inv, Current, SeenBy;
    if Counts(cfg, s, f, c) {
      CountedSound(cfg, s, f, c, seen);
    } else {
      OtherShape(cfg, s, f, c);
    }
  }

  /** What a segment can count on channel `c`: what its window held at the start, and what was seen since. */
  ghost function Countable(start: State, log: seq<ParsedFrame>, c: nat): set<string> {
    Current(start, c) + SeenOn(log, c)
  }

  lemma CountableSnoc(start: State, log: seq<ParsedFrame>, c: nat)
    requires log != []
    ensures Countable(start, log, c) == Countable(start, log[..|log| - 1], c) + SeenBy(log[|log| - 1], c)
  {
    hide SeenBy, Current;
  }

  lemma {:induction false} RunSound(cfg: Config, start: State, log: seq<ParsedFrame>, c: nat)
    requires Inv(cfg, start) && NoCleanup(cfg, start, log)
    ensures Sound(cfg, Windows(cfg, start, log, c), Countable(start, log, c))
    ensures Current(Run(cfg, start, log), c) <= Countable(start, log, c)
  {
    if log != [] {
      hide Step, ClosedBy, NoCleanup, Sweeping, Inv, Sound, Current, SeenBy, Countable;
      var before, f := log[..|log| - 1], log[|log| - 1];
      var s, seen := Run(cfg, start, before), Countable(start, before, c);
      NoCleanupPrefix(cfg, start, log);
      RunSound(cfg, start, before, c);
      RunInv(cfg, start, before);
      StepSound(cfg, s, f, c, seen);
      SoundAppend(cfg, Windows(cfg, start, before, c), ClosedBy(cfg, s, f, c), seen, seen + SeenBy(f, c));
      CountableSnoc(start, log, c);
    }
  }

  lemma {:induction false} WindowsCountEvents(cfg: Config, start: State, log: seq<ParsedFrame>, c: nat)
    requires NoCleanup(cfg, start, log)
    ensures FiredCount(Windows(cfg, start, log, c)) == EventCount(cfg, start, log, c)
  {
    if log != [] {
      hide Step, ClosedBy, NoCleanup, Sweeping, Inv, Fires, FiredCount;
      var before, f := log[..|log| - 1], log[|log| - 1];
      var s := Run(cfg, start, before);
      NoCleanupPrefix(cfg, start, log);
      WindowsCountEvents(cfg, start, before, c);
      StepCountsEvent(cfg, s, f, c);
      FiredCountAppend(Windows(cfg, start, before, c), ClosedBy(cfg, s, f, c));
    }
  }

  /**
   * In any run segment without a cleanup pass, from any reachable state, the events of a channel account
   * for `threshold` distinct BSSIDs each: no BSSID is counted by two events.
   */
  lemma EventsCountDistinctBSSIDs(cfg: Config, start: State, log: seq<ParsedFrame>, c: nat)
    requires Inv(cfg, start) && NoCleanup(cfg, start, log)
    ensures cfg.threshold * EventCount(cfg, start, log, c) <= |Current(start, c) + SeenOn(log, c)|
  {
    hide Sound;
    var seen := Countable(start, log, c);
    RunSound(cfg, start, log, c);
    WindowsCountEvents(cfg, start, log, c);
    WindowsAlmostDisjoint(cfg, start, log, c);
    FiredSizes(cfg, Windows(cfg, start, log, c), seen);
    SubsetSize(FiredUnion(Windows(cfg, start, log, c)), seen);
  }

  // ---- The rule as the object that updates its channel states in place ----

  class BeaconChannelState {
    var windowStart: Time
    var lastSeen: Time
    var beaconCount: nat
    var newBSSIDs: map<string, Time>
    var sampleSSIDs: set<string>
    var rssiCounts: map<int, nat>

    ghost function View(): Chan
      reads this
    {
      Chan(windowStart, lastSeen, beaconCount, newBSSIDs, sampleSSIDs, rssiCounts)
    }

    constructor (now: Time)
      ensures View() == Reset(now)
    {
      windowStart, lastSeen, beaconCount := now, now, 0;
      newBSSIDs, sampleSSIDs, rssiCounts := map[], {}, map[];
    }

    method ResetAt(now: Time)
      modifies this
      ensures View() == Reset(now)
    {
      windowStart, lastSeen, beaconCount := now, now, 0;
      newBSSIDs, sampleSSIDs, rssiCounts := map[], {}, map[];
    }

    method AddBeacon(b: string, f: ParsedFrame)
      modifies this
      ensures View() == Add(old(View()), b, f)
    {
      lastSeen := f.timestamp;
      beaconCount := beaconCount + 1;
      newBSSIDs := newBSSIDs[b := f.timestamp];
      if f.ssid != "" && |sampleSSIDs| < MAX_SAMPLES {
        sampleSSIDs := sampleSSIDs + {f.ssid};
      }
      rssiCounts := rssiCounts[f.rssi := (if f.rssi in rssiCounts then rssiCounts[f.rssi] else 0) + 1];
    }
  }

  lemma InitInv(cfg: Config)
    ensures Inv(cfg, INIT)
  {
  }

  lemma EnteredInv(cfg: Config, s: State, now: Time)
    requires Inv(cfg, s)
    ensures Inv(cfg, Entered(cfg, s, now))
  {
  }

  /** The map in the middle of a cleanup: the channels still to visit are all there. */
  ghost function PartlyActive(channels: map<nat, Chan>, todo: set<nat>, now: Time, maxAge: int): map<nat, Chan> {
    map c | c in channels && (c in todo || now - channels[c].lastSeen <= maxAge) :: channels[c]
  }

  lemma PartlyActiveNext(channels: map<nat, Chan>, todo: set<nat>, c: nat, now: Time, maxAge: int)
    requires c in todo && todo <= channels.Keys
    ensures var before := PartlyActive(channels, todo, now, maxAge);
      var after := PartlyActive(channels, todo - {c}, now, maxAge);
      && c in before && before[c] == channels[c]
      && after == if now - channels[c].lastSeen <= maxAge then before else before - {c}
  {
  }

  lemma PartlyActiveEnds(channels: map<nat, Chan>, now: Time, maxAge: int)
    ensures PartlyActive(channels, channels.Keys, now, maxAge) == channels
    ensures PartlyActive(channels, {}, now, maxAge) == Active(channels, now, maxAge)
  {
  }

  class BeaconFloodRule {
    const cfg: Config
    var startedAt: Time
    var knownBSSIDs: map<string, Time>
    var channels: map<nat, BeaconChannelState>
    var callCount: nat

    ghost predicate Separate()
      reads this`channels
    {
      forall c, d :: c in channels && d in channels && c != d ==> channels[c] != channels[d]
    }

    ghost function Chans(): map<nat, Chan>
      reads this`channels, channels.Values
    {
      map c | c in channels :: channels[c].View()
    }

    ghost function View(): State
      reads this, channels.Values
    {
      State(startedAt, knownBSSIDs, Chans(), callCount)
    }

    /** The rule is in the state that the frames of `log` lead to. */
    ghost predicate Follows(log: seq<ParsedFrame>)
      reads this, channels.Values
    {
      Separate() && View() == Run(cfg, INIT, log)
    }

    constructor (cfg: Config)
      ensures Follows([]) && this.cfg == cfg
    {
      this.cfg := cfg;
      startedAt, knownBSSIDs, channels, callCount := 0, map[], map[], 0;
    }

    lemma ChansAre(chans: map<nat, Chan>)
      requires channels.Keys == chans.Keys
      requires forall c :: c in channels ==> channels[c].View() == chans[c]
      ensures Chans() == chans
    {
    }

    lemma ChansList()
      ensures Chans().Keys == channels.Keys && forall c :: c in channels ==> Chans()[c] == channels[c].View()
    {
    }

    predicate IsFamiliar(f: ParsedFrame)
      requires Relevant(f)
      reads this, channels.Values
      ensures IsFamiliar(f) <==> Familiar(cfg, View(), f)
    {
      f.timestamp - startedAt < cfg.learningPeriod || KeyOf(f) in knownBSSIDs
    }

    method Forget(c: nat)
      requires Separate() && c in channels
      modifies this`channels
      ensures Separate() && channels.Values <= old(channels.Values)
      ensures channels == old(channels) - {c} && Chans() == old(Chans()) - {c}
    {
      hide Chans, BeaconChannelState.View;
      ghost var before := Chans();
      ChansList();
      channels := channels - {c};
      ChansAre(before - {c});
    }

    method DropStaleChannels(now: Time, maxAge: int)
      requires Separate()
      modifies this`channels
      ensures Separate() && channels.Values <= old(channels.Values)
      ensures Chans() == Active(old(Chans()), now, maxAge)
    {
      hide Chans, Separate, PartlyActive, Active;
      ghost var before := Chans();
      var todo := channels.Keys;
      ChansList();
      PartlyActiveEnds(before, now, maxAge);
      while todo != {}
        invariant Separate() && channels.Values <= old(channels.Values)
        invariant todo <= before.Keys && Chans() == PartlyActive(before, todo, now, maxAge)
        decreases |todo|
      {
        var c :| c in todo;
        PartlyActiveNext(before, todo, c, now, maxAge);
        ChansList();
        if now - channels[c].lastSeen > maxAge {
          Forget(c);
        }
        todo := todo - {c};
      }
    }

    method CleanupStale(now: Time)
      requires Separate()
      modifies this`knownBSSIDs, this`channels
      ensures Separate() && channels.Values <= old(channels.Values)
      ensures View() == CleanedUp(cfg, old(View()), now)
      ensures var maxAge := cfg.learningPeriod + 10 * cfg.window;
        && (forall b :: b in knownBSSIDs <==> b in old(knownBSSIDs) && now - old(knownBSSIDs)[b] <= maxAge)
        && forall c :: c in Chans() <==> c in old(Chans()) && now - old(Chans())[c].lastSeen <= maxAge
    {
      hide Chans, Separate;
      var maxAge := cfg.learningPeriod + 10 * cfg.window;
      knownBSSIDs := Younger(knownBSSIDs, now, maxAge);
      DropStaleChannels(now, maxAge);
    }

    method Enter(now: Time)
      requires Separate()
      modifies this
      ensures Separate() && channels.Values <= old(channels.Values)
      ensures View() == Entered(cfg, old(View()), now)
    {
      ghost var before := Chans();
      if startedAt == 0 {
        startedAt := now;
      }
      callCount := callCount + 1;
      ChansAre(before);
      if callCount % CLEANUP_INTERVAL == 0 {
        CleanupStale(now);
      }
    }

    method Alert(f: ParsedFrame, st: BeaconChannelState) returns (e: BeaconEvent)
      requires Sum(st.rssiCounts) == st.beaconCount
      ensures e == EventFor(f, st.View())
    {
      hide Dominant, Sum;
      var common, ok := DominantRSSI(st.rssiCounts, st.beaconCount);
      e := BeaconEvent(f.timestamp, Severity.Warning, f.srcMAC, f.bssid, f.channel, f.rssi, st.beaconCount,
                       f.timestamp as int - st.windowStart, |st.newBSSIDs|, st.sampleSSIDs,
                       if ok then Some(common) else None);
    }

    method AddTo(st: BeaconChannelState, f: ParsedFrame)
      requires Separate() && Relevant(f) && f.channel in channels && channels[f.channel] == st
      modifies st
      ensures unchanged(this) && st.View() == Add(old(st.View()), KeyOf(f), f)
      ensures Chans() == old(Chans())[f.channel := Add(old(st.View()), KeyOf(f), f)]
    {
      hide KeyOf, Add;
      ghost var before := Chans();
      st.AddBeacon(KeyOf(f), f);
      ChansAre(before[f.channel := st.View()]);
    }

    /** `promoteWindowToKnown`, then `reset`. */
    method Promote(c: nat, now: Time)
      requires Separate() && c in channels
      modifies this`knownBSSIDs, channels[c]
      ensures channels[c].View() == Reset(now) && Chans() == old(Chans())[c := Reset(now)]
      ensures knownBSSIDs == old(knownBSSIDs) + old(channels[c].newBSSIDs)
    {
      hide Chans, Reset;
      ghost var before := Chans();
      ChansList();
      knownBSSIDs := knownBSSIDs + channels[c].newBSSIDs;
      channels[c].ResetAt(now);
      ChansAre(before[c := Reset(now)]);
    }

    method ChannelState(c: nat, now: Time) returns (st: BeaconChannelState)
      requires Separate()
      modifies this`channels
      ensures Separate() && c in channels && channels[c] == st
      ensures if c in old(channels) then channels == old(channels)
              else fresh(st) && channels == old(channels)[c := st]
      ensures Chans() == old(Chans())[c := ChannelOf(old(View()), c, now)]
    {
      ghost var before := View();
      if c !in channels {
        var created := new BeaconChannelState(now);
        channels := channels[c := created];
      }
      st := channels[c];
      ChansAre(before.channels[c := ChannelOf(before, c, now)]);
    }

    /** Promotes the window of channel `c` and starts afresh when it has expired. */
    method Renew(c: nat, now: Time)
      requires Separate() && c in channels
      modifies this`knownBSSIDs, channels[c]
      ensures var st := old(channels[c].View());
        && channels[c].View() == (if Expired(cfg, st, now) then Reset(now) else st)
        && Chans() == old(Chans())[c := channels[c].View()]
        && knownBSSIDs == if Expired(cfg, st, now) then old(knownBSSIDs) + st.newBSSIDs else old(knownBSSIDs)
    {
      hide Chans, Reset;
      ChansList();
      if now - channels[c].windowStart > cfg.window {
        Promote(c, now);
      }
    }

    /** Finds the channel's window, replaces it by a fresh one when it has expired, and adds the BSSID. */
    method Grow(f: ParsedFrame) returns (st: BeaconChannelState)
      requires Separate() && Relevant(f)
      modifies this`knownBSSIDs, this`channels, channels.Values
      ensures Separate() && f.channel in channels && channels[f.channel] == st
      ensures f.channel in old(channels) || fresh(st)
      ensures f.channel in old(channels) ==> st == old(channels)[f.channel]
      ensures st.View() == Grown(cfg, old(View()), f)
      ensures knownBSSIDs == Promoted(cfg, old(View()), f)
      ensures Chans() == old(Chans())[f.channel := Grown(cfg, old(View()), f)]
    {
      hide KeyOf, Add, ChannelOf, Reset, Chans, Expired, BeaconChannelState.View;
      ghost var before := Chans();
      st := ChannelState(f.channel, f.timestamp);
      ChansList();
      UpdateTwice(before, f.channel, st.View(),
                  if Expired(cfg, st.View(), f.timestamp) then Reset(f.timestamp) else st.View());
      Renew(f.channel, f.timestamp);
      UpdateTwice(before, f.channel, st.View(), Add(st.View(), KeyOf(f), f));
      AddTo(st, f);
    }

    /** A BSSID that is neither learned nor known. */
    method CountNew(f: ParsedFrame) returns (events: seq<BeaconEvent>)
      requires Separate() && Relevant(f) && !Familiar(cfg, View(), f) && Inv(cfg, View())
      modifies this`knownBSSIDs, this`channels, channels.Values
      ensures Separate() && View() == NewBSSID(cfg, old(View()), f)
      ensures events == if |Grown(cfg, old(View()), f).newBSSIDs| >= cfg.threshold
                        then [EventFor(f, Grown(cfg, old(View()), f))] else []
    {
      hide KeyOf, Grown, Promoted, Sum, Familiar, EventFor, Chans, Reset;
      ghost var t := View();
      ghost var w := Grown(cfg, t, f);
      GrownInv(cfg, t, f);
      var st := Grow(f);
      assert st.View() == w;
      events := [];
      if |st.newBSSIDs| >= cfg.threshold {
        var e := Alert(f, st);
        events := [e];
        UpdateTwice(t.channels, f.channel, w, Reset(f.timestamp));
        Promote(f.channel, f.timestamp);
        assert Chans() == t.channels[f.channel := Reset(f.timestamp)];
      } else {
        assert Chans() == t.channels[f.channel := w];
      }
    }

    /** Any frame after any run: the event, if any, is the specification's, and counts `threshold` BSSIDs. */
    method Process(frame: ParsedFrame, ghost log: seq<ParsedFrame>) returns (events: seq<BeaconEvent>)
      requires Follows(log)
      modifies this, channels.Values
      ensures Follows(log + [frame])
      ensures events == match Emitted(cfg, Run(cfg, INIT, log), frame) case None => [] case Some(e) => [e]
      ensures forall e <- events :: e.newBSSIDCount == cfg.threshold
      ensures NoCleanup(cfg, INIT, log + [frame]) ==> (events != [] <==> Fills(cfg, INIT, log, frame))
    {
      hide NoCleanup, Fills, Run, Entered, Familiar, NewBSSID, Grown, EventFor, Inv;
      RunSnoc(cfg, INIT, log, frame);
      if NoCleanup(cfg, INIT, log + [frame]) { FiresIff(cfg, INIT, log, frame); }
      InitInv(cfg);
      RunInv(cfg, INIT, log);
      if Fires(cfg, View(), frame) { EventMeaning(cfg, View(), frame); }
      if frame.frameType != Beacon || frame.bssid == None {
        return [];
      }
      Enter(frame.timestamp);
      EnteredInv(cfg, Run(cfg, INIT, log), frame.timestamp);
      if IsFamiliar(frame) {
        ghost var before := Chans();
        knownBSSIDs := knownBSSIDs[KeyOf(frame) := frame.timestamp];
        ChansAre(before);
        return [];
      }
      events := CountNew(frame);
    }
  }
}
