/**
 * internal/detector/detector.go: the detection engine's deduplication.
 *
 * Every event that passes is stored in a cache under its key; an event is suppressed while its
 * key's entry is younger than the window. A sweep drops entries twice as old as the window and,
 * when the cache is still too large, its oldest half.
 */
module Dedup {
  import opened Basics
  import opened Mac

  const MAX_ENTRIES: nat := 10000
  const SWEEP_INTERVAL: nat := 1000

  /** What identifies an event; the fields that deduplication does not read are left out. */
  datatype SecurityEvent = SecurityEvent(eventType: string, srcMAC: Address, bssid: Address)

  type Cache = map<string, Time>

  datatype State = State(cache: Cache, window: pos, enabled: bool, frames: nat)

  /**
   * The engine's atomic operations. An emission reads the clock twice, to check and to store; a
   * sweep carries the order in which its sort lists the surviving keys, ties in any order.
   */
  datatype Op =
    | Frame
    | Emit(event: SecurityEvent, check: Time, store: Time)
    | Sweep(now: Time, oldestFirst: seq<string>)
    | SetWindow(d: int)
    | SetEnabled(on: bool)

  // ---- The engine's bookkeeping ----

  function DedupKey(e: SecurityEvent): string {
    e.eventType + ":" + AddressString(e.srcMAC) + ":" + AddressString(e.bssid)
  }

  predicate Suppressed(s: State, key: string, check: Time) {
    key in s.cache && check - s.cache[key] < s.window
  }

  predicate Passes(s: State, e: SecurityEvent, check: Time) {
    s.enabled && !Suppressed(s, DedupKey(e), check)
  }

  /** The entries not older than twice the window. */
  function Fresh(cache: Cache, window: pos, now: Time): Cache {
    map k | k in cache && now - 2 * window <= cache[k] :: cache[k]
  }

  function DropOldestHalf(cache: Cache, oldestFirst: seq<string>): Cache {
    cache - set i | 0 <= i < |oldestFirst| / 2 :: oldestFirst[i]
  }

  function SweptCache(s: State, now: Time, oldestFirst: seq<string>): Cache {
    var kept := Fresh(s.cache, s.window, now);
    if |kept| > MAX_ENTRIES then DropOldestHalf(kept, oldestFirst) else kept
  }

  function Step(s: State, op: Op): State {
    match op
    case Frame => s.(frames := s.frames + 1)
    case Emit(e, check, store) =>
      if Passes(s, e, check) then s.(cache := s.cache[DedupKey(e) := store]) else s
    case Sweep(now, oldestFirst) => s.(cache := SweptCache(s, now, oldestFirst))
    case SetWindow(d) => if d <= 0 then s else s.(window := d)
    case SetEnabled(on) => s.(enabled := on)
  }

  function Init(window: pos, enabled: bool): State { State(map[], window, enabled, 0) }

  function Run(init: State, log: seq<Op>): State {
    if log == [] then init else Step(Run(init, log[..|log| - 1]), log[|log| - 1])
  }

  /** The state in which the `k`-th operation finds the engine. */
  function Before(init: State, log: seq<Op>, k: nat): State
    requires k <= |log|
  {
    Run(init, log[..k])
  }

  lemma RunSnoc(init: State, log: seq<Op>, op: Op)
    ensures Run(init, log + [op]) == Step(Run(init, log), op)
  {
    hide Step;
    assert (log + [op])[..|log|] == log;
  }

  lemma RunNothing(init: State)
    ensures Run(init, []) == init
  {
  }

  lemma {:induction false} RunAppend(init: State, log: seq<Op>, more: seq<Op>)
    ensures Run(init, log + more) == Run(Run(init, log), more)
    decreases |more|
  {
    hide Step;
    if more == [] {
      assert log + more == log;
    } else {
      var rest, op := more[..|more| - 1], more[|more| - 1];
      RunAppend(init, log, rest);
      assert log + more == (log + rest) + [op];
      RunSnoc(init, log + rest, op);
    }
  }

  lemma RunOne(init: State, op: Op)
    ensures Run(init, [op]) == Step(init, op)
  {
    hide Step;
    var log: seq<Op> := [op];
    assert log[..0] == [];
    RunNothing(init);
  }

  lemma FrameOnly(init: State)
    ensures Run(init, [Frame]) == init.(frames := init.frames + 1)
  {
    var log: seq<Op> := [Frame];
    assert log[..0] == [];
    RunNothing(init);
  }

  lemma FrameThen(init: State, log: seq<Op>)
    ensures Run(init, [Frame] + log) == Run(init.(frames := init.frames + 1), log)
  {
    hide Run, Step;
    FrameOnly(init);
    RunAppend(init, [Frame], log);
  }

  lemma DedupKeyInjective(e: SecurityEvent, f: SecurityEvent)
    requires DedupKey(e) == DedupKey(f)
    ensures e == f
  {
    SuffixInjective(e.eventType + ":" + AddressString(e.srcMAC), e.bssid,
                    f.eventType + ":" + AddressString(f.srcMAC), f.bssid);
    SuffixInjective(e.eventType, e.srcMAC, f.eventType, f.srcMAC);
  }

  // ---- Whole-run deduplication ----

  /** The `k`-th operation is an emission of `e` that passed. */
  ghost predicate PassedAt(init: State, log: seq<Op>, e: SecurityEvent, k: int) {
    0 <= k < |log| && log[k].Emit? && log[k].event == e && Passes(Before(init, log, k), e, log[k].check)
  }

  ghost function Begin(op: Op): Option<Time> {
    match op case Emit(_, check, _) => Some(check) case Sweep(now, _) => Some(now) case _ => None
  }

  ghost function End(op: Op): Option<Time> {
    match op case Emit(_, _, store) => Some(store) case Sweep(now, _) => Some(now) case _ => None
  }

  /** The engine's goroutine reads a clock that never goes back. */
  ghost predicate Ordered(log: seq<Op>) {
    && (forall k :: 0 <= k < |log| && log[k].Emit? ==> log[k].check <= log[k].store)
    && (forall j, k :: 0 <= j < k < |log| && End(log[j]).Some? && Begin(log[k]).Some? ==>
          End(log[j]).value <= Begin(log[k]).value)
  }

  /** The `k`-th operation is a sweep. */
  ghost predicate SweepAt(log: seq<Op>, k: int) { 0 <= k < |log| && log[k].Sweep? }

  /** The sweep finds too many entries after its time-based pass. */
  ghost predicate OverflowsAt(init: State, log: seq<Op>, k: int) {
    && SweepAt(log, k)
    && |Fresh(Before(init, log, k).cache, Before(init, log, k).window, log[k].now)| > MAX_ENTRIES
  }

  /** The sweep drops an entry of `e` stored at `stored`: for its age, or among the oldest half. */
  ghost predicate DropsAt(init: State, log: seq<Op>, e: SecurityEvent, k: int, stored: Time) {
    && SweepAt(log, k)
    && (|| log[k].now - stored > 2 * Before(init, log, k).window
        || (OverflowsAt(init, log, k) && DedupKey(e) in log[k].oldestFirst[..|log[k].oldestFirst| / 2]))
  }

  /** Between its storing at operation `j` and operation `n` a sweep dropped the entry of `e`. */
  ghost predicate Forgotten(init: State, log: seq<Op>, e: SecurityEvent, j: int, n: int) {
    0 <= j < |log| && log[j].Emit? && exists k :: j < k < n && DropsAt(init, log, e, k, log[j].store)
  }

  /** After `n` operations the cache remembers the last pass of `e`, or a sweep dropped it. */
  ghost predicate RemembersPasses(init: State, log: seq<Op>, n: nat, e: SecurityEvent)
    requires n <= |log|
  {
    var cache, key := Before(init, log, n).cache, DedupKey(e);
    forall j :: PassedAt(init, log, e, j) && j < n ==>
      (key in cache && log[j].store <= cache[key]) || Forgotten(init, log, e, j, n)
  }

  /** And what it remembers is a pass that no sweep dropped. */
  ghost predicate RemembersOnlyPasses(init: State, log: seq<Op>, n: nat, e: SecurityEvent)
    requires n <= |log|
  {
    var cache, key := Before(init, log, n).cache, DedupKey(e);
    key in cache ==> exists j :: PassedAt(init, log, e, j) && j < n && log[j].store == cache[key]
                              && !Forgotten(init, log, e, j, n)
  }

  lemma BeforeNext(init: State, log: seq<Op>, n: nat)
    requires n < |log|
    ensures Before(init, log, n + 1) == Step(Before(init, log, n), log[n])
  {
    assert log[..n + 1] == log[..n] + [log[n]];
    RunSnoc(init, log[..n], log[n]);
  }

  lemma ForgottenNext(init: State, log: seq<Op>, e: SecurityEvent, j: int, n: nat)
    requires n < |log| && 0 <= j < n && log[j].Emit?
    ensures Forgotten(init, log, e, j, n + 1)
       <==> Forgotten(init, log, e, j, n) || DropsAt(init, log, e, n, log[j].store)
  {
    hide DropsAt;
  }

  lemma DropsHalf(s: State, now: Time, order: seq<string>, key: string)
    ensures key in SweptCache(s, now, order) <==>
      && key in s.cache && now - s.cache[key] <= 2 * s.window
      && !(|Fresh(s.cache, s.window, now)| > MAX_ENTRIES && key in order[..|order| / 2])
    ensures key in SweptCache(s, now, order) ==> SweptCache(s, now, order)[key] == s.cache[key]
  {
    var dropped := set i | 0 <= i < |order| / 2 :: order[i];
    assert key in dropped <==> key in order[..|order| / 2];
  }

  /** What one operation does to the entry of `e`. */
  lemma EntryNext(init: State, log: seq<Op>, n: nat, e: SecurityEvent)
    requires n < |log|
    ensures var cache, next, key := Before(init, log, n).cache, Before(init, log, n + 1).cache, DedupKey(e);
      if PassedAt(init, log, e, n) then key in next && next[key] == log[n].store
      else && (key in next ==> key in cache && next[key] == cache[key] && !DropsAt(init, log, e, n, cache[key]))
           && (key in cache && key !in next ==> DropsAt(init, log, e, n, cache[key]))
  {
    hide DedupKey;
    BeforeNext(init, log, n);
    if log[n].Emit? && DedupKey(log[n].event) == DedupKey(e) {
      DedupKeyInjective(log[n].event, e);
    }
    if SweepAt(log, n) {
      DropsHalf(Before(init, log, n), log[n].now, log[n].oldestFirst, DedupKey(e));
    }
  }

  /** An older entry than a dropped one is dropped with it. */
  lemma DropsOlder(init: State, log: seq<Op>, e: SecurityEvent, k: int, stored: Time, older: Time)
    requires DropsAt(init, log, e, k, stored) && older <= stored
    ensures DropsAt(init, log, e, k, older)
  {
    hide DedupKey, Before;
  }

  lemma RemembersPassesNext(init: State, log: seq<Op>, n: nat, e: SecurityEvent)
    requires n < |log| && Ordered(log) && RemembersPasses(init, log, n, e)
    ensures RemembersPasses(init, log, n + 1, e)
  {
    hide DedupKey, DropsAt, Forgotten, Before, Passes;
    var cache, next, key := Before(init, log, n).cache, Before(init, log, n + 1).cache, DedupKey(e);
    EntryNext(init, log, n, e);
    forall j | PassedAt(init, log, e, j) && j < n + 1
      ensures (key in next && log[j].store <= next[key]) || Forgotten(init, log, e, j, n + 1) {
      if j < n {
        ForgottenNext(init, log, e, j, n);
        if PassedAt(init, log, e, n) {
          assert End(log[j]) == Some(log[j].store) && Begin(log[n]) == Some(log[n].check);
        } else if key in cache && key !in next && log[j].store <= cache[key] {
          DropsOlder(init, log, e, n, cache[key], log[j].store);
        }
      }
    }
  }

  lemma RemembersOnlyPassesNext(init: State, log: seq<Op>, n: nat, e: SecurityEvent)
    requires n < |log| && RemembersOnlyPasses(init, log, n, e)
    ensures RemembersOnlyPasses(init, log, n + 1, e)
  {
    hide DedupKey, DropsAt, Before, Passes;
    EntryNext(init, log, n, e);
    var cache, next, key := Before(init, log, n).cache, Before(init, log, n + 1).cache, DedupKey(e);
    if PassedAt(init, log, e, n) {
      assert !Forgotten(init, log, e, n, n + 1);
    } else if key in next {
      var j :| PassedAt(init, log, e, j) && j < n && log[j].store == cache[key] && !Forgotten(init, log, e, j, n);
      ForgottenNext(init, log, e, j, n);
    }
  }

  lemma NothingRemembered(init: State, log: seq<Op>, e: SecurityEvent)
    requires init.cache == map[]
    ensures RemembersPasses(init, log, 0, e) && RemembersOnlyPasses(init, log, 0, e)
  {
  }

  lemma {:induction false} RunRemembers(init: State, log: seq<Op>, n: nat, e: SecurityEvent)
    requires n <= |log| && init.cache == map[] && Ordered(log)
    ensures RemembersPasses(init, log, n, e) && RemembersOnlyPasses(init, log, n, e)
  {
    hide RemembersPasses, RemembersOnlyPasses, Ordered, Before;
    if n > 0 {
      RunRemembers(init, log, n - 1, e);
      RemembersPassesNext(init, log, n - 1, e);
      RemembersOnlyPassesNext(init, log, n - 1, e);
    } else {
      NothingRemembered(init, log, e);
    }
  }

  /** At operation `n`, a pass stored at `j` is at least the current window ago. */
  ghost predicate SpacedFrom(init: State, log: seq<Op>, j: int, n: int) {
    0 <= j < n < |log| && log[j].Emit? && log[n].Emit?
    && log[n].check - log[j].store >= Before(init, log, n).window
  }

  /** Every earlier pass of `e` is at least the current window ago. */
  ghost predicate Spaced(init: State, log: seq<Op>, e: SecurityEvent, n: nat) {
    forall j :: PassedAt(init, log, e, j) && j < n ==> SpacedFrom(init, log, j, n)
  }

  /**
   * Deduplication over whole runs, for any sweeps and any changes of the window: an event passes exactly
   * when the engine is enabled and every earlier event of the same type, source and BSSID that passed was
   * stored at least one window ago or has since been dropped by a sweep.
   */
  lemma PassesIff(init: State, log: seq<Op>, n: nat)
    requires n < |log| && log[n].Emit? && init.cache == map[] && Ordered(log)
    ensures var e := log[n].event;
      PassedAt(init, log, e, n) <==>
        && Before(init, log, n).enabled
        && forall j :: PassedAt(init, log, e, j) && j < n ==>
             SpacedFrom(init, log, j, n) || Forgotten(init, log, e, j, n)
  {
    hide DedupKey, Forgotten, Before, Ordered;
    RunRemembers(init, log, n, log[n].event);
  }

  /** A pass within the window that a sweep has dropped, while nothing that is remembered stands in the way. */
  ghost predicate Misses(init: State, log: seq<Op>, n: nat)
    requires n < |log| && log[n].Emit?
  {
    var e := log[n].event;
    && Before(init, log, n).enabled
    && (exists j :: PassedAt(init, log, e, j) && j < n && !SpacedFrom(init, log, j, n))
    && (forall j :: PassedAt(init, log, e, j) && j < n && !SpacedFrom(init, log, j, n) ==>
          Forgotten(init, log, e, j, n))
  }

  /**
   * Measured against the passes of the run itself, spacing alone decides exactly when sweeps have not
   * dropped every pass within the window.
   */
  lemma PassesIffSpaced(init: State, log: seq<Op>, n: nat)
    requires n < |log| && log[n].Emit? && init.cache == map[] && Ordered(log)
    ensures var e := log[n].event;
      !Misses(init, log, n) <==>
        (PassedAt(init, log, e, n) <==> Before(init, log, n).enabled && Spaced(init, log, e, n))
  {
    hide DedupKey, Forgotten, Before, Ordered, SpacedFrom, Passes;
    PassesIff(init, log, n);
  }

  /**
   * No sweep that follows a pass of `e` overflows, and the window at `n` is at most one more than twice
   * what it was at each of those sweeps.
   */
  ghost predicate Covered(init: State, log: seq<Op>, e: SecurityEvent, n: nat)
    requires n <= |log|
  {
    forall j, k :: PassedAt(init, log, e, j) && j < k < n && SweepAt(log, k) ==>
      !OverflowsAt(init, log, k) && Before(init, log, n).window <= 2 * Before(init, log, k).window + 1
  }

  /** Under such sweeps spacing alone decides, for a constant window in particular. */
  lemma CoveredNeverMisses(init: State, log: seq<Op>, n: nat)
    requires n < |log| && log[n].Emit? && init.cache == map[] && Ordered(log)
    requires Covered(init, log, log[n].event, n)
    ensures PassedAt(init, log, log[n].event, n)
       <==> Before(init, log, n).enabled && Spaced(init, log, log[n].event, n)
  {
    hide DedupKey, Before, OverflowsAt;
    var e := log[n].event;
    PassesIff(init, log, n);
    forall j | PassedAt(init, log, e, j) && j < n && Forgotten(init, log, e, j, n) ensures SpacedFrom(init, log, j, n) {
      var k :| j < k < n && DropsAt(init, log, e, k, log[j].store);
      assert End(log[k]) == Some(log[k].now) && Begin(log[n]) == Some(log[n].check);
    }
  }

  // ---- Compared with an engine that never sweeps ----

  /** The operation, or one that does nothing in the place of a sweep. */
  function NoSweep(op: Op): Op { if op.Sweep? then SetWindow(0) else op }

  /** The same run on a map that is never swept. */
  function NoSweeps(log: seq<Op>): seq<Op> { seq(|log|, k requires 0 <= k < |log| => NoSweep(log[k])) }

  /** Operation `k`, if it emits, passes or is suppressed just as it would be on the map that is never swept. */
  ghost predicate AgreeAt(init: State, log: seq<Op>, k: int) {
    0 <= k < |log| && log[k].Emit? ==>
      (PassedAt(init, log, log[k].event, k) <==> PassedAt(init, NoSweeps(log), log[k].event, k))
  }

  ghost predicate MissesAt(init: State, log: seq<Op>, k: int) {
    0 <= k < |log| && log[k].Emit? && Misses(init, log, k)
  }

  lemma BeforeNothing(init: State, log: seq<Op>)
    ensures Before(init, log, 0) == init
  {
  }

  lemma {:induction false} SameSettings(init: State, log: seq<Op>, n: nat)
    requires n <= |log|
    ensures Before(init, NoSweeps(log), n).window == Before(init, log, n).window
    ensures Before(init, NoSweeps(log), n).enabled == Before(init, log, n).enabled
  {
    hide DedupKey, SweptCache, Passes, Before;
    if n > 0 {
      SameSettings(init, log, n - 1);
      BeforeNext(init, log, n - 1);
      BeforeNext(init, NoSweeps(log), n - 1);
    } else {
      BeforeNothing(init, log);
      BeforeNothing(init, NoSweeps(log));
    }
  }

  lemma NoSweepsOrdered(log: seq<Op>)
    requires Ordered(log)
    ensures Ordered(NoSweeps(log))
  {
    forall j, k | 0 <= j < k < |log| && End(NoSweeps(log)[j]).Some? && Begin(NoSweeps(log)[k]).Some?
      ensures End(NoSweeps(log)[j]).value <= Begin(NoSweeps(log)[k]).value {
      assert End(log[j]) == End(NoSweeps(log)[j]) && Begin(log[k]) == Begin(NoSweeps(log)[k]);
    }
  }

  /** On the map that is never swept spacing alone decides. */
  lemma UnsweptDecides(init: State, log: seq<Op>, n: nat)
    requires n < |log| && log[n].Emit? && init.cache == map[] && Ordered(log)
    ensures PassedAt(init, NoSweeps(log), log[n].event, n)
       <==> Before(init, log, n).enabled && Spaced(init, NoSweeps(log), log[n].event, n)
  {
    hide Before, PassedAt, Spaced, Ordered;
    NoSweepsOrdered(log);
    SameSettings(init, log, n);
    CoveredNeverMisses(init, NoSweeps(log), n);
  }

  /** While the two runs agree, they agree on what is spaced. */
  lemma SameSpaced(init: State, log: seq<Op>, n: nat)
    requires n < |log| && log[n].Emit? && forall k :: 0 <= k < n ==> AgreeAt(init, log, k)
    ensures var e := log[n].event; Spaced(init, NoSweeps(log), e, n) <==> Spaced(init, log, e, n)
  {
    hide Before, Passes;
    var e := log[n].event;
    SameSettings(init, log, n);
    forall j | 0 <= j < n
      ensures PassedAt(init, log, e, j) <==> PassedAt(init, NoSweeps(log), e, j)
      ensures SpacedFrom(init, log, j, n) <==> SpacedFrom(init, NoSweeps(log), j, n) {
      assert AgreeAt(init, log, j);
    }
  }

  /** While all earlier decisions agree, sweeping changes the next one exactly when it misses. */
  lemma AgreesIff(init: State, log: seq<Op>, n: nat)
    requires n < |log| && init.cache == map[] && Ordered(log)
    requires forall k :: 0 <= k < n ==> AgreeAt(init, log, k)
    ensures AgreeAt(init, log, n) <==> !MissesAt(init, log, n)
  {
    hide Before, PassedAt, Spaced, Ordered, Misses, NoSweeps;
    if log[n].Emit? {
      UnsweptDecides(init, log, n);
      SameSpaced(init, log, n);
      PassesIffSpaced(init, log, n);
    }
  }

  /**
   * Sweeping changes no decision of a run, compared with a map that is never swept, exactly when no
   * emission of the run meets a pass within its window of which sweeps have dropped every trace.
   */
  lemma {:induction false} SweepsChangeNothingIff(init: State, log: seq<Op>, n: nat)
    requires n <= |log| && init.cache == map[] && Ordered(log)
    ensures (forall k :: 0 <= k < n ==> AgreeAt(init, log, k)) <==> forall k :: 0 <= k < n ==> !MissesAt(init, log, k)
  {
    hide AgreeAt, MissesAt, Ordered;
    if n > 0 {
      SweepsChangeNothingIff(init, log, n - 1);
      if forall k :: 0 <= k < n - 1 ==> AgreeAt(init, log, k) {
        AgreesIff(init, log, n - 1);
      }
    }
  }

  /** A window that nobody changes covers itself. */
  lemma {:induction false} ConstantWindow(init: State, log: seq<Op>, n: nat)
    requires n <= |log| && forall k :: 0 <= k < n ==> !log[k].SetWindow?
    ensures Before(init, log, n).window == init.window
  {
    hide DedupKey, SweptCache, Passes;
    if n > 0 {
      ConstantWindow(init, log, n - 1);
      BeforeNext(init, log, n - 1);
    }
  }

  /** With a constant window and no overflow, two passes of an event are at least a window apart. */
  lemma ConstantWindowDecides(init: State, log: seq<Op>, n: nat)
    requires n < |log| && log[n].Emit? && init.cache == map[] && Ordered(log)
    requires forall k :: 0 <= k < n ==> !log[k].SetWindow? && !OverflowsAt(init, log, k)
    ensures PassedAt(init, log, log[n].event, n)
       <==> Before(init, log, n).enabled && Spaced(init, log, log[n].event, n)
  {
    hide Before, OverflowsAt, PassedAt, Spaced, Ordered;
    forall k: nat | k <= n ensures Before(init, log, k).window == init.window {
      ConstantWindow(init, log, k);
    }
    CoveredNeverMisses(init, log, n);
  }

  /** And every decision is the one of a map that is never swept. */
  lemma ConstantWindowAgrees(init: State, log: seq<Op>, k: nat)
    requires k < |log| && init.cache == map[] && Ordered(log)
    requires forall i :: 0 <= i < |log| ==> !log[i].SetWindow? && !OverflowsAt(init, log, i)
    ensures AgreeAt(init, log, k)
  {
    hide Before, OverflowsAt, PassedAt, Spaced, Ordered, Misses, AgreeAt;
    forall i | 0 <= i < |log| ensures !MissesAt(init, log, i) {
      if log[i].Emit? {
        ConstantWindowDecides(init, log, i);
        PassesIffSpaced(init, log, i);
      }
    }
    SweepsChangeNothingIff(init, log, |log|);
  }

  /** A pass, the latest sweep that does not forget it lawfully, a grown window, and the same event again. */
  function GrownLog(w: pos, grown: pos, e: SecurityEvent): seq<Op> {
    [Emit(e, 0, 0), Sweep(2 * w + 1, []), SetWindow(grown), Emit(e, 2 * w + 1, 2 * w + 1)]
  }

  lemma GrownStates(w: pos, grown: pos, e: SecurityEvent)
    ensures var init, log := Init(w, true), GrownLog(w, grown, e);
      && Before(init, log, 0) == init
      && Before(init, log, 1) == State(map[DedupKey(e) := 0], w, true, 0)
      && Before(init, log, 3) == State(map[], grown, true, 0)
  {
    hide DedupKey;
    var init, log, key := Init(w, true), GrownLog(w, grown, e), DedupKey(e);
    BeforeNext(init, log, 0);
    BeforeNext(init, log, 1);
    BeforeNext(init, log, 2);
    assert Fresh(map[key := 0], w, 2 * w + 1) == map[];
  }

  lemma FirstNeverMisses(init: State, log: seq<Op>)
    requires log != []
    ensures !MissesAt(init, log, 0)
  {
  }

  lemma GrownDisagrees(init: State, log: seq<Op>)
    requires |log| == 4 && init.cache == map[] && Ordered(log)
    requires log[0].Emit? && log[1].Sweep? && log[2].SetWindow? && MissesAt(init, log, 3)
    ensures !AgreeAt(init, log, 3)
  {
    hide PassedAt, Misses, Ordered, MissesAt;
    FirstNeverMisses(init, log);
    AgreesIff(init, log, 0);
    AgreesIff(init, log, 3);
  }

  /**
   * The bound on growth is exact: for any larger window after a sweep, some run lets the same event
   * pass twice within one window.
   */
  lemma GrownWindowForgets(w: pos, grown: pos, e: SecurityEvent)
    requires grown > 2 * w + 1
    ensures var init, log := Init(w, true), GrownLog(w, grown, e);
      && Ordered(log) && !OverflowsAt(init, log, 1)
      && PassedAt(init, log, e, 0) && PassedAt(init, log, e, 3) && Misses(init, log, 3) && !AgreeAt(init, log, 3)
      && log[3].check - log[0].store < Before(init, log, 3).window
  {
    hide DedupKey;
    var init, log, key := Init(w, true), GrownLog(w, grown, e), DedupKey(e);
    GrownStates(w, grown, e);
    assert PassedAt(init, log, e, 0);
    assert PassedAt(init, log, e, 3);
    assert Fresh(map[key := 0], w, 2 * w + 1) == map[];
    assert DropsAt(init, log, e, 1, log[0].store);
    assert !SpacedFrom(init, log, 0, 3);
    GrownDisagrees(init, log);
  }

  // ---- The size of the cache ----

  type Emission = op: Op | op.Emit? witness Emit(SecurityEvent("", None, None), 0, 0)

  /** What a rule makes of a frame: the events it returns, with the clock readings of their emission, or a panic. */
  datatype RuleResult = Panicked | Events(emissions: seq<Emission>)

  /** The events that one frame emits, rule by rule; a rule that panics adds none. */
  function Emissions(results: seq<RuleResult>): seq<Emission> {
    if results == [] then []
    else
      var before, last := Emissions(results[..|results| - 1]), results[|results| - 1];
      if last.Events? then before + last.emissions else before
  }

  /** With rules that return at most `m` events each, a frame emits at most `m` per rule. */
  lemma {:induction false} EmissionsBounded(results: seq<RuleResult>, m: nat)
    requires forall i :: 0 <= i < |results| && results[i].Events? ==> |results[i].emissions| <= m
    ensures |Emissions(results)| <= m * |results|
  {
    if results != [] {
      var init := results[..|results| - 1];
      EmissionsBounded(init, m);
      assert m * |results| == m * |init| + m;
    }
  }

  lemma EmissionsSnoc(results: seq<RuleResult>, i: nat)
    requires i < |results|
    ensures Emissions(results[..i + 1]) ==
      if results[i].Events? then Emissions(results[..i]) + results[i].emissions else Emissions(results[..i])
  {
    assert results[..i + 1][..i] == results[..i];
  }

  /** What reaches the engine's loop: a frame with the events its rules returned, a tick, or a setting. */
  datatype Input =
    | Dispatch(emissions: seq<Emission>, now: Time, oldestFirst: seq<string>)
    | Tick(now: Time, oldestFirst: seq<string>)
    | Setting(op: Op)

  ghost function FrameCount(inputs: seq<Input>): nat {
    if inputs == [] then 0
    else FrameCount(inputs[..|inputs| - 1]) + (if inputs[|inputs| - 1].Dispatch? then 1 else 0)
  }

  /** The operations one input performs; every thousandth frame ends in a sweep. */
  function Ops(frames: nat, input: Input): seq<Op> {
    match input
    case Dispatch(emissions, now, oldestFirst) =>
      [Frame] + emissions + (if (frames + 1) % SWEEP_INTERVAL == 0 then [Sweep(now, oldestFirst)] else [])
    case Tick(now, oldestFirst) => [Sweep(now, oldestFirst)]
    case Setting(op) => if op.SetWindow? || op.SetEnabled? then [op] else []
  }

  ghost function Log(inputs: seq<Input>): seq<Op> {
    if inputs == [] then []
    else Log(inputs[..|inputs| - 1]) + Ops(FrameCount(inputs[..|inputs| - 1]), inputs[|inputs| - 1])
  }

  /** `order` lists the keys of the cache, each once, oldest entry first. */
  ghost predicate OldestFirst(order: seq<string>, cache: Cache) {
    && |order| == |cache|
    && (forall i :: 0 <= i < |order| ==> order[i] in cache)
    && (forall i, j :: 0 <= i < j < |order| ==> order[i] != order[j] && cache[order[i]] <= cache[order[j]])
  }

  /** A sweep that overflows lists the surviving keys as its sort does. */
  ghost predicate Sorts(s: State, now: Time, order: seq<string>) {
    |Fresh(s.cache, s.window, now)| > MAX_ENTRIES ==> OldestFirst(order, Fresh(s.cache, s.window, now))
  }

  ghost predicate SweepsSort(init: State, log: seq<Op>) {
    forall k :: SweepAt(log, k) ==> Sorts(Before(init, log, k), log[k].now, log[k].oldestFirst)
  }

  lemma {:induction false} PrefixSet(order: seq<string>, n: nat)
    requires n <= |order| && forall i, j :: 0 <= i < j < |order| ==> order[i] != order[j]
    ensures |set i | 0 <= i < n :: order[i]| == n
  {
    if n > 0 {
      PrefixSet(order, n - 1);
      assert (set i | 0 <= i < n :: order[i]) == (set i | 0 <= i < n - 1 :: order[i]) + {order[n - 1]};
    }
  }

  lemma RemoveSize(cache: Cache, keys: set<string>)
    requires keys <= cache.Keys
    ensures |cache - keys| == |cache| - |keys|
  {
    assert (cache - keys).Keys == cache.Keys - keys;
  }

  lemma FreshSize(cache: Cache, window: pos, now: Time)
    ensures |Fresh(cache, window, now)| <= |cache|
  {
    assert Fresh(cache, window, now).Keys <= cache.Keys;
    RemoveSize(cache, cache.Keys - Fresh(cache, window, now).Keys);
    assert (cache - (cache.Keys - Fresh(cache, window, now).Keys)).Keys == Fresh(cache, window, now).Keys;
  }

  /** A duplicate-free list as long as the cache leaves no key out. */
  lemma OrderCovers(cache: Cache, order: seq<string>, key: string)
    requires OldestFirst(order, cache) && key in cache
    ensures key in order
  {
    PrefixSet(order, |order|);
    var listed := set i | 0 <= i < |order| :: order[i];
    RemoveSize(cache, listed);
    assert key in listed || key in cache - listed;
  }

  /** On overflow exactly the older half goes: no key that is dropped is newer than a key that is kept. */
  lemma OverflowDropsOldest(cache: Cache, order: seq<string>)
    requires OldestFirst(order, cache)
    ensures var kept := DropOldestHalf(cache, order);
      && |kept| == |cache| - |cache| / 2
      && (forall k :: k in kept ==> k in cache && kept[k] == cache[k])
      && (forall gone, young :: gone in cache && gone !in kept && young in kept ==> cache[gone] <= kept[young])
  {
    var dropped := set i | 0 <= i < |order| / 2 :: order[i];
    PrefixSet(order, |order| / 2);
    RemoveSize(cache, dropped);
    forall young | young in cache && young !in dropped
      ensures forall gone :: gone in dropped ==> cache[gone] <= cache[young] {
      OrderCovers(cache, order, young);
    }
  }

  lemma SweepSize(s: State, now: Time, order: seq<string>)
    requires Sorts(s, now, order)
    ensures |SweptCache(s, now, order)| <= Max(10000, (|s.cache| + 1) / 2)
    ensures |SweptCache(s, now, order)| <= |s.cache|
  {
    FreshSize(s.cache, s.window, now);
    if |Fresh(s.cache, s.window, now)| > MAX_ENTRIES {
      OverflowDropsOldest(Fresh(s.cache, s.window, now), order);
    }
  }

  ghost function EmitCount(log: seq<Op>, m: nat, n: nat): nat
    requires m <= n <= |log|
  {
    if m == n then 0 else EmitCount(log, m, n - 1) + (if log[n - 1].Emit? then 1 else 0)
  }

  /** Only emissions grow the cache, each by at most one entry. */
  lemma {:induction false} Growth(init: State, log: seq<Op>, m: nat, n: nat)
    requires m <= n <= |log| && SweepsSort(init, log)
    ensures |Before(init, log, n).cache| <= |Before(init, log, m).cache| + EmitCount(log, m, n)
  {
    hide DedupKey, SweptCache, Sorts;
    if m < n {
      Growth(init, log, m, n - 1);
      BeforeNext(init, log, n - 1);
      if SweepAt(log, n - 1) {
        SweepSize(Before(init, log, n - 1), log[n - 1].now, log[n - 1].oldestFirst);
      }
    }
  }

  lemma {:induction false} EmitsAtMost(log: seq<Op>, m: nat, n: nat)
    requires m <= n <= |log|
    ensures EmitCount(log, m, n) <= n - m
  {
    if m < n { EmitsAtMost(log, m, n - 1); }
  }

  /** The most the cache can hold just after a frame-count sweep, when a frame yields at most `r` events. */
  function Peak(r: nat): nat { Max(MAX_ENTRIES, SWEEP_INTERVAL * r) }

  lemma {:induction false} LogPrefix(inputs: seq<Input>, i: nat)
    requires i <= |inputs|
    ensures Log(inputs[..i]) <= Log(inputs)
  {
    if i < |inputs| {
      LogPrefix(inputs[..|inputs| - 1], i);
      assert inputs[..|inputs| - 1][..i] == inputs[..i];
    } else {
      assert inputs[..i] == inputs;
    }
  }

  /** Where the operations of input `i` sit in the log of the whole run. */
  lemma OpsInLog(inputs: seq<Input>, i: nat)
    requires i < |inputs|
    ensures var m, ops := |Log(inputs[..i])|, Ops(FrameCount(inputs[..i]), inputs[i]);
      && |Log(inputs[..i + 1])| == m + |ops| <= |Log(inputs)|
      && forall k :: 0 <= k < |ops| ==> Log(inputs)[m + k] == ops[k]
    ensures FrameCount(inputs[..i + 1]) == FrameCount(inputs[..i]) + (if inputs[i].Dispatch? then 1 else 0)
  {
    hide Ops;
    LogPrefix(inputs, i + 1);
    assert inputs[..i + 1][..i] == inputs[..i];
  }

  ghost predicate AtMostPerFrame(inputs: seq<Input>, r: nat) {
    forall i :: 0 <= i < |inputs| && inputs[i].Dispatch? ==> |inputs[i].emissions| <= r
  }

  lemma {:induction false} EmitsWithin(log: seq<Op>, input: Input, frames: nat, m: nat, n: nat)
    requires m <= n <= m + |Ops(frames, input)| <= |log|
    requires forall k :: 0 <= k < |Ops(frames, input)| ==> log[m + k] == Ops(frames, input)[k]
    ensures EmitCount(log, m, n) <= if input.Dispatch? then |input.emissions| else 0
    ensures input.Dispatch? && 0 < n - m <= |input.emissions| + 1 ==> EmitCount(log, m, n) <= n - m - 1
  {
    if m < n {
      EmitsWithin(log, input, frames, m, n - 1);
      assert log[m + (n - 1 - m)] == Ops(frames, input)[n - 1 - m];
    }
  }

  /** While one input is handled the cache gains at most `r` entries over what it held before. */
  lemma WithinInput(init: State, inputs: seq<Input>, r: nat, i: nat, n: nat)
    requires i < |inputs| && AtMostPerFrame(inputs, r) && SweepsSort(init, Log(inputs))
    requires |Log(inputs[..i])| <= n <= |Log(inputs[..i + 1])| <= |Log(inputs)|
    ensures |Before(init, Log(inputs), n).cache|
         <= |Before(init, Log(inputs), |Log(inputs[..i])|).cache| + (if inputs[i].Dispatch? then r else 0)
  {
    hide Log, Before, SweepsSort, Ops, FrameCount;
    var log, m := Log(inputs), |Log(inputs[..i])|;
    OpsInLog(inputs, i);
    Growth(init, log, m, n);
    EmitsWithin(log, inputs[i], FrameCount(inputs[..i]), m, n);
  }

  lemma StartsEmpty(init: State, inputs: seq<Input>)
    ensures Log(inputs[..0]) == [] && FrameCount(inputs[..0]) == 0 && Before(init, Log(inputs), 0) == init
  {
  }

  lemma MulMonotone(r: nat, a: nat, b: nat)
    requires a <= b
    ensures r * a <= r * b
  {
  }

  lemma PeakShare(r: nat, frames: nat)
    requires frames < SWEEP_INTERVAL
    ensures r * frames + r <= SWEEP_INTERVAL * r
    ensures frames == SWEEP_INTERVAL - 1 ==> r * frames + r == SWEEP_INTERVAL * r
  {
    MulMonotone(r, frames + 1, SWEEP_INTERVAL);
  }

  lemma NextFrame(frames: nat)
    ensures (frames + 1) % SWEEP_INTERVAL
         == if frames % SWEEP_INTERVAL == SWEEP_INTERVAL - 1 then 0 else frames % SWEEP_INTERVAL + 1
  {
  }

  /** The sweep that ends every thousandth frame brings the cache back to its peak. */
  lemma SweepLast(init: State, inputs: seq<Input>, r: nat, i: nat)
    requires i < |inputs| && AtMostPerFrame(inputs, r) && SweepsSort(init, Log(inputs))
    requires inputs[i].Dispatch? && (FrameCount(inputs[..i]) + 1) % SWEEP_INTERVAL == 0
    requires |Log(inputs[..i + 1])| <= |Log(inputs)| && |Log(inputs[..i])| <= |Log(inputs)|
    requires |Before(init, Log(inputs), |Log(inputs[..i])|).cache|
          <= Peak(r) + r * (FrameCount(inputs[..i]) % SWEEP_INTERVAL)
    ensures |Before(init, Log(inputs), |Log(inputs[..i + 1])|).cache| <= Peak(r)
  {
    hide Log, Before, SweptCache, Sorts;
    var log, n, frames := Log(inputs), |Log(inputs[..i + 1])|, FrameCount(inputs[..i]);
    OpsInLog(inputs, i);
    WithinInput(init, inputs, r, i, n - 1);
    BeforeNext(init, log, n - 1);
    assert log[n - 1] == Ops(frames, inputs[i])[|Ops(frames, inputs[i])| - 1];
    assert SweepAt(log, n - 1);
    SweepSize(Before(init, log, n - 1), log[n - 1].now, log[n - 1].oldestFirst);
    NextFrame(frames);
    PeakShare(r, frames % SWEEP_INTERVAL);
  }

  /** The cache before input `i` is within its peak and the share of the frames since the last sweep. */
  ghost predicate BoundedAt(init: State, inputs: seq<Input>, r: nat, i: nat)
    requires i <= |inputs|
  {
    && |Log(inputs[..i])| <= |Log(inputs)|
    && |Before(init, Log(inputs), |Log(inputs[..i])|).cache|
       <= Peak(r) + r * (FrameCount(inputs[..i]) % SWEEP_INTERVAL)
  }

  lemma BoundStarts(init: State, inputs: seq<Input>, r: nat)
    requires init.cache == map[]
    ensures BoundedAt(init, inputs, r, 0)
  {
    StartsEmpty(init, inputs);
  }

  lemma BoundSwept(init: State, inputs: seq<Input>, r: nat, i: nat)
    requires i < |inputs| && AtMostPerFrame(inputs, r) && SweepsSort(init, Log(inputs)) && BoundedAt(init, inputs, r, i)
    requires inputs[i].Dispatch? && (FrameCount(inputs[..i]) + 1) % SWEEP_INTERVAL == 0
    ensures BoundedAt(init, inputs, r, i + 1)
  {
    hide Log, SweepsSort, Before, Peak, Ops, FrameCount, AtMostPerFrame;
    OpsInLog(inputs, i);
    SweepLast(init, inputs, r, i);
  }

  lemma ShareGrows(r: nat, frames: nat)
    ensures r * (frames + 1) == r * frames + r
  {
  }

  lemma BoundGrows(init: State, inputs: seq<Input>, r: nat, i: nat)
    requires i < |inputs| && AtMostPerFrame(inputs, r) && SweepsSort(init, Log(inputs)) && BoundedAt(init, inputs, r, i)
    requires inputs[i].Dispatch? ==> (FrameCount(inputs[..i]) + 1) % SWEEP_INTERVAL != 0
    ensures BoundedAt(init, inputs, r, i + 1)
  {
    hide Log, SweepsSort, Before, Peak, Ops, FrameCount, AtMostPerFrame;
    var frames := FrameCount(inputs[..i]);
    OpsInLog(inputs, i);
    WithinInput(init, inputs, r, i, |Log(inputs[..i + 1])|);
    NextFrame(frames);
    ShareGrows(r, frames % SWEEP_INTERVAL);
  }

  /** Between inputs the cache is within its peak plus what the frames since the last sweep added. */
  lemma {:induction false} BoundBetween(init: State, inputs: seq<Input>, r: nat, i: nat)
    requires i <= |inputs| && init.cache == map[]
    requires AtMostPerFrame(inputs, r) && SweepsSort(init, Log(inputs))
    ensures BoundedAt(init, inputs, r, i)
  {
    hide Log, SweepsSort, BoundedAt, FrameCount, AtMostPerFrame;
    if i > 0 {
      BoundBetween(init, inputs, r, i - 1);
      if inputs[i - 1].Dispatch? && (FrameCount(inputs[..i - 1]) + 1) % SWEEP_INTERVAL == 0 {
        BoundSwept(init, inputs, r, i - 1);
      } else {
        BoundGrows(init, inputs, r, i - 1);
      }
    } else {
      BoundStarts(init, inputs, r);
    }
  }

  /**
   * The bound on the cache, over every run and at every moment of it, when a frame yields at most `r`
   * events: twice its peak, and never more than a peak and the events since the last frame-count sweep.
   */
  lemma {:induction false} CacheBounded(init: State, inputs: seq<Input>, r: nat, i: nat, n: nat)
    requires i <= |inputs| && init.cache == map[]
    requires AtMostPerFrame(inputs, r) && SweepsSort(init, Log(inputs))
    requires n <= |Log(inputs[..i])| <= |Log(inputs)|
    ensures |Before(init, Log(inputs), n).cache| <= Max(10000, 1000 * r) + 1000 * r
  {
    hide Log, SweepsSort, Before, Ops;
    if i > 0 {
      LogPrefix(inputs, i - 1);
      if n <= |Log(inputs[..i - 1])| {
        CacheBounded(init, inputs, r, i - 1, n);
      } else {
        BoundBetween(init, inputs, r, i - 1);
        WithinInput(init, inputs, r, i - 1, n);
        PeakShare(r, FrameCount(inputs[..i - 1]) % SWEEP_INTERVAL);
      }
    } else {
      StartsEmpty(init, inputs);
    }
  }

  /** With at most ten events a frame, every frame-count sweep leaves at most the documented maximum. */
  lemma SweepRestoresMaximum(init: State, inputs: seq<Input>, r: nat)
    requires r <= 10 && init.cache == map[] && AtMostPerFrame(inputs, r) && SweepsSort(init, Log(inputs))
    requires FrameCount(inputs) % 1000 == 0
    ensures |Run(init, Log(inputs)).cache| <= 10000
  {
    hide Log, SweepsSort, FrameCount;
    BoundBetween(init, inputs, r, |inputs|);
    assert inputs[..|inputs|] == inputs;
    assert Log(inputs)[..|Log(inputs)|] == Log(inputs);
  }

  // ---- Between sweeps the documented maximum can be exceeded ----

  /** The `k`-th operation stores one more entry in a cache that holds the documented maximum already. */
  ghost predicate OverfillsAt(init: State, log: seq<Op>, k: int) {
    0 <= k < |log| && log[k].Emit? && PassedAt(init, log, log[k].event, k)
    && |Before(init, log, k).cache| == 10000 && DedupKey(log[k].event) !in Before(init, log, k).cache
  }

  ghost predicate WithinMaximum(init: State, log: seq<Op>, n: int) {
    0 <= n <= |log| ==> |Before(init, log, n).cache| <= 10000
  }

  lemma InsertSize(cache: Cache, key: string, t: Time)
    ensures |cache[key := t]| == |cache| + (if key in cache then 0 else 1)
  {
    assert cache[key := t].Keys == cache.Keys + {key};
  }

  /** From a cache within the maximum one operation leaves it exactly when it overfills the cache. */
  lemma StepWithinMaximum(init: State, log: seq<Op>, k: nat)
    requires k < |log| && SweepsSort(init, log) && WithinMaximum(init, log, k)
    ensures WithinMaximum(init, log, k + 1) <==> !OverfillsAt(init, log, k)
  {
    hide DedupKey, Before, SweptCache, Sorts;
    var s := Before(init, log, k);
    BeforeNext(init, log, k);
    if log[k].Emit? {
      InsertSize(s.cache, DedupKey(log[k].event), log[k].store);
    } else if SweepAt(log, k) {
      SweepSize(s, log[k].now, log[k].oldestFirst);
    }
  }

  lemma {:induction false} WithinMaximumUpTo(init: State, log: seq<Op>, n: nat)
    requires n <= |log| && init.cache == map[] && SweepsSort(init, log)
    requires forall k :: 0 <= k < n ==> !OverfillsAt(init, log, k)
    ensures WithinMaximum(init, log, n)
  {
    hide SweepsSort, OverfillsAt;
    if n > 0 {
      WithinMaximumUpTo(init, log, n - 1);
      StepWithinMaximum(init, log, n - 1);
    }
  }

  lemma OverfillsInside(init: State, log: seq<Op>, k: int)
    ensures OverfillsAt(init, log, k) ==> 0 <= k < |log|
  {
  }

  /**
   * Exactly which runs keep the documented maximum at every moment: those in which no event with a new
   * key passes while the cache is full.
   */
  lemma WithinMaximumIff(init: State, log: seq<Op>)
    requires init.cache == map[] && SweepsSort(init, log)
    ensures (forall n :: WithinMaximum(init, log, n)) <==> forall k :: !OverfillsAt(init, log, k)
  {
    hide SweepsSort, OverfillsAt, Before;
    if forall n :: WithinMaximum(init, log, n) {
      forall k ensures !OverfillsAt(init, log, k) {
        if 0 <= k < |log| {
          assert WithinMaximum(init, log, k) && WithinMaximum(init, log, k + 1);
          StepWithinMaximum(init, log, k);
        } else {
          OverfillsInside(init, log, k);
        }
      }
    }
    if forall k :: !OverfillsAt(init, log, k) {
      forall n ensures WithinMaximum(init, log, n) {
        if 0 <= n <= |log| {
          WithinMaximumUpTo(init, log, n);
        }
      }
    }
  }

  /** The `i`-th of a family of events with distinct keys. */
  function Nth(i: nat): SecurityEvent { SecurityEvent(seq(i, _ => 'x'), None, None) }

  function CrowdInput(i: nat): Input { Dispatch([Emit(Nth(i), 0, 0)], 0, []) }

  /** One rule, one event a frame, every event new. */
  function Crowd(n: nat): seq<Input> {
    if n == 0 then [] else Crowd(n - 1) + [CrowdInput(n - 1)]
  }

  ghost predicate Crowded(s: State, n: nat) {
    && s.enabled && |s.cache| == n
    && forall k :: k in s.cache ==> |k| < n + 2 && s.cache[k] == 0
  }

  lemma CrowdSteps(s: State, n: nat)
    requires Crowded(s, n)
    ensures Crowded(Step(s, Frame), n)
    ensures Crowded(Step(s, Emit(Nth(n), 0, 0)), n + 1)
    ensures n <= MAX_ENTRIES ==> Sorts(s, 0, []) && Crowded(Step(s, Sweep(0, [])), n)
  {
    assert |DedupKey(Nth(n))| == n + 2;
    assert DedupKey(Nth(n)) !in s.cache;
    assert Fresh(s.cache, s.window, 0) == s.cache;
  }

  lemma SweepsSortSnoc(init: State, log: seq<Op>, op: Op)
    requires SweepsSort(init, log)
    requires op.Sweep? ==> Sorts(Run(init, log), op.now, op.oldestFirst)
    ensures SweepsSort(init, log + [op])
  {
    hide Sorts;
    forall k | SweepAt(log + [op], k)
      ensures Sorts(Before(init, log + [op], k), (log + [op])[k].now, (log + [op])[k].oldestFirst) {
      assert (log + [op])[..k] == log[..k];
      assert k < |log| ==> SweepAt(log, k);
      assert k == |log| ==> log[..k] == log;
    }
  }

  lemma CrowdLog(n: pos)
    requires FrameCount(Crowd(n - 1)) == n - 1
    ensures Log(Crowd(n)) == Log(Crowd(n - 1)) + [Frame] + [Emit(Nth(n - 1), 0, 0)]
                             + (if n % SWEEP_INTERVAL == 0 then [Sweep(0, [])] else [])
    ensures FrameCount(Crowd(n)) == n
  {
    hide Nth;
    assert Crowd(n)[..|Crowd(n)| - 1] == Crowd(n - 1);
  }

  lemma CrowdOp(init: State, log: seq<Op>, op: Op, n: nat, m: nat)
    requires Crowded(Run(init, log), n) && SweepsSort(init, log)
    requires || (op == Frame && m == n)
             || (op == Emit(Nth(n), 0, 0) && m == n + 1)
             || (op == Sweep(0, []) && m == n <= MAX_ENTRIES)
    ensures Crowded(Run(init, log + [op]), m) && SweepsSort(init, log + [op])
  {
    hide Crowded, Sorts, SweepsSort, Step, Nth, Run;
    CrowdSteps(Run(init, log), n);
    RunSnoc(init, log, op);
    SweepsSortSnoc(init, log, op);
  }

  /** A log of new events, all within the maximum but the last, whose sweeps have nothing to sort. */
  ghost predicate CrowdHolds(w: pos, log: seq<Op>, n: nat) {
    Crowded(Run(Init(w, true), log), n) && SweepsSort(Init(w, true), log)
  }

  lemma CrowdStarts(w: pos)
    ensures CrowdHolds(w, Log(Crowd(0)), 0) && FrameCount(Crowd(0)) == 0
  {
  }

  lemma CrowdNext(w: pos, log: seq<Op>, n: nat)
    requires n <= MAX_ENTRIES && CrowdHolds(w, log, n)
    ensures CrowdHolds(w, log + [Frame] + [Emit(Nth(n), 0, 0)], n + 1)
    ensures n < MAX_ENTRIES ==> CrowdHolds(w, log + [Frame] + [Emit(Nth(n), 0, 0)] + [Sweep(0, [])], n + 1)
  {
    hide Crowded, SweepsSort, Nth, Run;
    var init, more := Init(w, true), log + [Frame] + [Emit(Nth(n), 0, 0)];
    CrowdOp(init, log, Frame, n, n);
    CrowdOp(init, log + [Frame], Emit(Nth(n), 0, 0), n, n + 1);
    if n < MAX_ENTRIES {
      CrowdOp(init, more, Sweep(0, []), n + 1, n + 1);
    }
  }

  lemma {:induction false} CrowdRuns(w: pos, n: nat)
    requires n <= MAX_ENTRIES + 1
    ensures CrowdHolds(w, Log(Crowd(n)), n) && FrameCount(Crowd(n)) == n
  {
    hide CrowdHolds, Nth, Log, Crowd, FrameCount;
    if n > 0 {
      CrowdRuns(w, n - 1);
      CrowdLog(n);
      var log := Log(Crowd(n - 1)) + [Frame] + [Emit(Nth(n - 1), 0, 0)];
      CrowdNext(w, Log(Crowd(n - 1)), n - 1);
      if n % SWEEP_INTERVAL == 0 {
        assert n - 1 < MAX_ENTRIES;
        assert Log(Crowd(n)) == log + [Sweep(0, [])];
      } else {
        assert Log(Crowd(n)) == log;
      }
    } else {
      CrowdStarts(w);
    }
  }

  lemma {:induction false} CrowdPerFrame(n: nat)
    ensures AtMostPerFrame(Crowd(n), 1)
  {
    if n > 0 {
      hide Nth;
      CrowdPerFrame(n - 1);
    }
  }

  /**
   * The cache is not always within the documented maximum: for any window, one rule raising one new
   * event a frame takes it past ten thousand entries between two sweeps.
   */
  lemma DocumentedMaximumExceeded(w: pos)
    ensures exists inputs :: AtMostPerFrame(inputs, 1) && SweepsSort(Init(w, true), Log(inputs))
                          && |Run(Init(w, true), Log(inputs)).cache| > 10000
  {
    CrowdRuns(w, MAX_ENTRIES + 1);
    CrowdPerFrame(MAX_ENTRIES + 1);
  }

  // ---- Runs extended by one input ----

  lemma LogNext(inputs: seq<Input>, input: Input)
    ensures Log(inputs + [input]) == Log(inputs) + Ops(FrameCount(inputs), input)
    ensures FrameCount(inputs + [input]) == FrameCount(inputs) + (if input.Dispatch? then 1 else 0)
  {
    hide Ops;
    assert (inputs + [input])[..|inputs|] == inputs;
  }

  lemma BeforeAppend(init: State, log: seq<Op>, more: seq<Op>, k: nat)
    requires k <= |more|
    ensures Before(init, log + more, |log| + k) == Before(Run(init, log), more, k)
  {
    hide Run;
    assert (log + more)[..|log| + k] == log + more[..k];
    RunAppend(init, log, more[..k]);
  }

  lemma SweepsSortAppend(init: State, log: seq<Op>, more: seq<Op>)
    requires SweepsSort(init, log) && SweepsSort(Run(init, log), more)
    ensures SweepsSort(init, log + more)
  {
    hide Sorts, Run;
    var all := log + more;
    forall k | SweepAt(all, k) ensures Sorts(Before(init, all, k), all[k].now, all[k].oldestFirst) {
      if k < |log| {
        assert all[..k] == log[..k] && SweepAt(log, k);
      } else {
        BeforeAppend(init, log, more, k - |log|);
        assert SweepAt(more, k - |log|);
      }
    }
  }

  lemma NothingSwept(s: State, log: seq<Op>)
    requires forall k :: 0 <= k < |log| ==> !log[k].Sweep?
    ensures SweepsSort(s, log)
  {
  }

  /** The sweeps of one input list the keys as their sort does, when its only sweep, the last operation, does. */
  lemma OpsSort(s: State, frames: nat, input: Input)
    requires input.Tick? ==> Sorts(s, input.now, input.oldestFirst)
    requires input.Dispatch? && (frames + 1) % SWEEP_INTERVAL == 0 ==>
      Sorts(Run(s, [Frame] + input.emissions), input.now, input.oldestFirst)
    ensures SweepsSort(s, Ops(frames, input))
  {
    hide Sorts, Run;
    match input
    case Dispatch(emissions, now, oldestFirst) =>
      NothingSwept(s, [Frame] + emissions);
      if (frames + 1) % SWEEP_INTERVAL == 0 {
        SweepsSortSnoc(s, [Frame] + emissions, Sweep(now, oldestFirst));
      } else {
        assert [Frame] + emissions + [] == [Frame] + emissions;
      }
    case Tick(now, oldestFirst) =>
      NothingSwept(s, []);
      RunNothing(s);
      SweepsSortSnoc(s, [], Sweep(now, oldestFirst));
      assert [] + [Sweep(now, oldestFirst)] == [Sweep(now, oldestFirst)];
    case Setting(_) =>
      NothingSwept(s, Ops(frames, input));
  }

  /** One more input, from the state that the inputs so far lead to. */
  lemma InputNext(init: State, inputs: seq<Input>, input: Input)
    requires SweepsSort(init, Log(inputs)) && SweepsSort(Run(init, Log(inputs)), Ops(FrameCount(inputs), input))
    ensures SweepsSort(init, Log(inputs + [input]))
    ensures Run(init, Log(inputs + [input])) == Run(Run(init, Log(inputs)), Ops(FrameCount(inputs), input))
  {
    hide Run, SweepsSort, Log, Ops, FrameCount;
    LogNext(inputs, input);
    SweepsSortAppend(init, Log(inputs), Ops(FrameCount(inputs), input));
    RunAppend(init, Log(inputs), Ops(FrameCount(inputs), input));
  }

  /** One more frame, and the sweep that ends it when it is due. */
  lemma DispatchNext(init: State, inputs: seq<Input>, emissions: seq<Emission>, now: Time, order: seq<string>)
    requires SweepsSort(init, Log(inputs))
    requires (FrameCount(inputs) + 1) % SWEEP_INTERVAL == 0 ==>
      Sorts(Run(Run(init, Log(inputs)), [Frame] + emissions), now, order)
    ensures var more := inputs + [Input.Dispatch(emissions, now, order)];
      var emitted := Run(Run(init, Log(inputs)), [Frame] + emissions);
      && SweepsSort(init, Log(more)) && FrameCount(more) == FrameCount(inputs) + 1
      && Run(init, Log(more))
         == if FrameCount(more) % SWEEP_INTERVAL == 0 then Step(emitted, Sweep(now, order)) else emitted
  {
    hide Run, SweepsSort, Log, FrameCount, Step, Sorts;
    var s, input := Run(init, Log(inputs)), Input.Dispatch(emissions, now, order);
    OpsSort(s, FrameCount(inputs), input);
    InputNext(init, inputs, input);
    LogNext(inputs, input);
    if (FrameCount(inputs) + 1) % SWEEP_INTERVAL == 0 {
      RunSnoc(s, [Frame] + emissions, Sweep(now, order));
    } else {
      assert [Frame] + emissions + [] == [Frame] + emissions;
    }
  }

  lemma SettingNext(init: State, inputs: seq<Input>, op: Op)
    requires op.SetWindow? || op.SetEnabled?
    requires SweepsSort(init, Log(inputs))
    ensures SweepsSort(init, Log(inputs + [Setting(op)]))
    ensures Run(init, Log(inputs + [Setting(op)])) == Step(Run(init, Log(inputs)), op)
    ensures FrameCount(inputs + [Setting(op)]) == FrameCount(inputs)
  {
    hide Run, SweepsSort, Log, FrameCount, Step;
    var s := Run(init, Log(inputs));
    OpsSort(s, FrameCount(inputs), Setting(op));
    InputNext(init, inputs, Setting(op));
    LogNext(inputs, Setting(op));
    RunOne(s, op);
  }

  lemma NothingEmitted(results: seq<RuleResult>)
    ensures Emissions(results[..0]) == []
  {
  }

  // ---- What reaches the alert queue ----

  /** The events of a run that pass, in their order. */
  ghost function Passed(init: State, log: seq<Op>): seq<SecurityEvent> {
    if log == [] then []
    else
      var before, op := log[..|log| - 1], log[|log| - 1];
      if op.Emit? && Passes(Run(init, before), op.event, op.check) then Passed(init, before) + [op.event]
      else Passed(init, before)
  }

  lemma PassedSnoc(init: State, log: seq<Op>, op: Op)
    ensures Passed(init, log + [op]) ==
      if op.Emit? && Passes(Run(init, log), op.event, op.check) then Passed(init, log) + [op.event]
      else Passed(init, log)
  {
    hide Passes;
    assert (log + [op])[..|log|] == log;
  }

  lemma {:induction false} PassedAppend(init: State, log: seq<Op>, more: seq<Op>)
    ensures Passed(init, log + more) == Passed(init, log) + Passed(Run(init, log), more)
    decreases |more|
  {
    hide Passes, Run;
    if more == [] {
      assert log + more == log;
    } else {
      var rest, op := more[..|more| - 1], more[|more| - 1];
      PassedAppend(init, log, rest);
      assert log + more == (log + rest) + [op];
      PassedSnoc(init, log + rest, op);
      RunAppend(init, log, rest);
    }
  }

  lemma PassedNext(init: State, log: seq<Op>, n: nat)
    requires n < |log|
    ensures Passed(init, log[..n + 1]) ==
      if log[n].Emit? && PassedAt(init, log, log[n].event, n) then Passed(init, log[..n]) + [log[n].event]
      else Passed(init, log[..n])
  {
    hide Passes, Run;
    assert log[..n + 1] == log[..n] + [log[n]];
    PassedSnoc(init, log[..n], log[n]);
  }

  /** Each passing emission is listed, at the place that the passes before it leave to it. */
  lemma {:induction false} PassesListed(init: State, log: seq<Op>, e: SecurityEvent, k: nat, n: nat)
    requires k < n <= |log| && PassedAt(init, log, e, k)
    ensures |Passed(init, log[..k])| < |Passed(init, log[..n])|
    ensures Passed(init, log[..n])[|Passed(init, log[..k])|] == e
  {
    hide Passed;
    PassedNext(init, log, n - 1);
    if k < n - 1 {
      PassesListed(init, log, e, k, n - 1);
    }
  }

  /** And nothing else is listed. */
  lemma {:induction false} ListedPass(init: State, log: seq<Op>, i: nat, n: nat)
    requires n <= |log| && i < |Passed(init, log[..n])|
    ensures exists k: nat ::
      k < n && PassedAt(init, log, Passed(init, log[..n])[i], k) && |Passed(init, log[..k])| == i
  {
    hide PassedAt;
    if n == 0 {
      assert false;
    } else {
      PassedNext(init, log, n - 1);
      if i < |Passed(init, log[..n - 1])| {
        ListedPass(init, log, i, n - 1);
      }
    }
  }

  /** A queue after as many of the new events as it has room for. */
  ghost function Queued(queue: seq<SecurityEvent>, passed: seq<SecurityEvent>, capacity: nat): (q: seq<SecurityEvent>)
    requires |queue| <= capacity
    ensures |q| <= capacity && queue <= q
    ensures |queue| + |passed| <= capacity ==> q == queue + passed
  {
    queue + passed[..Min(|passed|, capacity - |queue|)]
  }

  lemma QueuedNext(queue: seq<SecurityEvent>, passed: seq<SecurityEvent>, e: SecurityEvent, capacity: nat)
    requires |queue| <= capacity
    ensures Queued(queue, passed + [e], capacity) ==
      if |Queued(queue, passed, capacity)| < capacity then Queued(queue, passed, capacity) + [e]
      else Queued(queue, passed, capacity)
  {
    var q := Queued(queue, passed, capacity);
    if |q| < capacity {
      assert queue + (passed + [e]) == queue + passed + [e];
    } else {
      assert (passed + [e])[..capacity - |queue|] == passed[..capacity - |queue|];
    }
  }

  lemma {:induction false} QueuedAppend(queue: seq<SecurityEvent>, passed: seq<SecurityEvent>,
        more: seq<SecurityEvent>, capacity: nat)
    requires |queue| <= capacity
    ensures Queued(queue, passed + more, capacity) == Queued(Queued(queue, passed, capacity), more, capacity)
    decreases |more|
  {
    hide Queued;
    if more == [] {
      assert passed + more == passed;
    } else {
      var rest, e := more[..|more| - 1], more[|more| - 1];
      QueuedAppend(queue, passed, rest, capacity);
      QueuedNext(queue, passed + rest, e, capacity);
      QueuedNext(Queued(queue, passed, capacity), rest, e, capacity);
      assert passed + more == (passed + rest) + [e] && more == rest + [e];
    }
  }

  lemma NothingPasses(s: State, op: Op)
    requires !op.Emit?
    ensures Passed(s, []) == [] && Passed(s, [op]) == []
  {
    PassedSnoc(s, [], op);
    assert [] + [op] == [op];
  }

  /** Of the operations of a frame only its emissions pass, in the state that the frames before it left. */
  lemma DispatchPasses(init: State, inputs: seq<Input>, emissions: seq<Emission>, now: Time, order: seq<string>)
    ensures var s := Run(init, Log(inputs));
      Passed(init, Log(inputs + [Input.Dispatch(emissions, now, order)]))
      == Passed(init, Log(inputs)) + Passed(s.(frames := s.frames + 1), emissions)
  {
    hide Run, Passed, Log, FrameCount, Step;
    var s, input := Run(init, Log(inputs)), Input.Dispatch(emissions, now, order);
    var framed := [Frame] + emissions;
    LogNext(inputs, input);
    PassedAppend(init, Log(inputs), Ops(FrameCount(inputs), input));
    PassedAppend(s, [Frame], emissions);
    FrameOnly(s);
    NothingPasses(s, Frame);
    if (FrameCount(inputs) + 1) % SWEEP_INTERVAL == 0 {
      PassedAppend(s, framed, [Sweep(now, order)]);
      NothingPasses(Run(s, framed), Sweep(now, order));
    } else {
      assert framed + [] == framed;
    }
  }

  /** An event that passes during the frame while the queue has room is in the queue after it. */
  lemma RoomDelivers(init: State, inputs: seq<Input>, input: Input, queue: seq<SecurityEvent>, capacity: nat,
        e: SecurityEvent, n: nat)
    requires |queue| <= capacity && |Log(inputs)| <= n && PassedAt(init, Log(inputs + [input]), e, n)
    requires |queue| + |Passed(init, Log(inputs + [input])[..n])| - |Passed(init, Log(inputs))| < capacity
    ensures Passed(init, Log(inputs)) <= Passed(init, Log(inputs + [input]))
    ensures e in Queued(queue, Passed(init, Log(inputs + [input]))[|Passed(init, Log(inputs))|..], capacity)
  {
    hide Passed, Passes, Log, Run, Ops;
    var log, more := Log(inputs), Ops(FrameCount(inputs), input);
    LogNext(inputs, input);
    PassedAppend(init, log, more);
    PassedAppend(init, log, more[..n - |log|]);
    assert (log + more)[..n] == log + more[..n - |log|];
    PassesListed(init, log + more, e, n, |log + more|);
    assert (log + more)[..|log + more|] == log + more;
    var i := |Passed(init, log + more[..n - |log|])| - |Passed(init, log)|;
    var passed := Passed(init, log + more)[|Passed(init, log)|..];
    assert passed[i] == e;
    assert Queued(queue, passed, capacity)[|queue| + i] == e;
  }

  lemma NothingQueued(s: State, queue: seq<SecurityEvent>, capacity: nat)
    requires |queue| <= capacity
    ensures Queued(queue, Passed(s, []), capacity) == queue
  {
  }

  /** A rule that panics loses its own events only. */
  lemma {:induction false} EmissionsAppend(results: seq<RuleResult>, more: seq<RuleResult>)
    ensures Emissions(results + more) == Emissions(results) + Emissions(more)
    ensures Emissions(results + [Panicked]) == Emissions(results)
    ensures forall es :: Emissions(results + [Events(es)]) == Emissions(results) + es
    decreases |more|
  {
    assert (results + [Panicked])[..|results|] == results;
    forall es ensures Emissions(results + [Events(es)]) == Emissions(results) + es {
      assert (results + [Events(es)])[..|results|] == results;
    }
    if more == [] {
      assert results + more == results;
    } else {
      var rest := more[..|more| - 1];
      EmissionsAppend(results, rest);
      assert (results + more)[..|results + more| - 1] == results + rest;
    }
  }

  // ---- The engine as the object that updates its cache and queue in place ----

  datatype RegisterError = EngineStarted | DuplicateName | InitFailed

  lemma EmptySorted()
    ensures OldestFirst([], map[])
  {
  }

  /** Behind every entry that is not newer than `t`. */
  method Position(order: seq<string>, cache: Cache, t: Time) returns (i: nat)
    requires OldestFirst(order, cache)
    ensures i <= |order| && (forall j :: 0 <= j < i ==> order[j] in cache && cache[order[j]] <= t)
    ensures i < |order| ==> order[i] in cache && t <= cache[order[i]]
  {
    i := 0;
    while i < |order| && cache[order[i]] <= t
      invariant i <= |order| && forall j :: 0 <= j < i ==> cache[order[j]] <= t
    {
      i := i + 1;
    }
  }

  lemma InsertSorted(order: seq<string>, cache: Cache, key: string, t: Time, i: nat)
    requires OldestFirst(order, cache) && key !in cache && i <= |order|
    requires forall j :: 0 <= j < i ==> order[j] in cache && cache[order[j]] <= t
    requires i < |order| ==> order[i] in cache && t <= cache[order[i]]
    ensures OldestFirst(order[..i] + [key] + order[i..], cache[key := t])
  {
  }

  /** Lists the keys of the cache, oldest entry first, by inserting each into the sorted list. */
  method SortByTime(cache: Cache) returns (order: seq<string>)
    ensures OldestFirst(order, cache)
  {
    hide OldestFirst;
    order := [];
    EmptySorted();
    var todo, done: Cache := cache.Keys, map[];
    while todo != {}
      invariant todo <= cache.Keys && done.Keys == cache.Keys - todo
      invariant forall k :: k in done ==> done[k] == cache[k]
      invariant OldestFirst(order, done)
      decreases |todo|
    {
      var key :| key in todo;
      var i := Position(order, done, cache[key]);
      InsertSorted(order, done, key, cache[key], i);
      order := order[..i] + [key] + order[i..];
      done := done[key := cache[key]];
      todo := todo - {key};
    }
    assert done == cache;
  }

  lemma DropNext(cache: Cache, order: seq<string>, i: nat)
    requires i < |order|
    ensures cache - (set j | 0 <= j < i :: order[j]) - {order[i]} == cache - set j | 0 <= j < i + 1 :: order[j]
  {
    assert (set j | 0 <= j < i + 1 :: order[j]) == (set j | 0 <= j < i :: order[j]) + {order[i]};
  }

  class Engine {
    var rules: seq<string>
    var started: bool
    var dedup: Cache
    var dedupWindow: pos
    var enabled: bool
    var frameCount: nat
    var alerts: seq<SecurityEvent>
    const capacity: nat

    ghost function View(): State
      reads this
    {
      State(dedup, dedupWindow, enabled, frameCount)
    }

    /** From `init`, an empty cache, the engine is in the state that its inputs lead to. */
    ghost predicate Follows(init: State, inputs: seq<Input>)
      reads this
    {
      && init.cache == map[] && init.frames == 0 && |alerts| <= capacity
      && View() == Run(init, Log(inputs)) && frameCount == FrameCount(inputs)
      && SweepsSort(init, Log(inputs))
    }

    /** The bounds on the cache, on the engine itself. */
    lemma CacheWithin(init: State, inputs: seq<Input>, r: nat)
      requires Follows(init, inputs) && AtMostPerFrame(inputs, r)
      ensures |dedup| <= Max(10000, 1000 * r) + r * (frameCount % 1000)
      ensures r <= 10 && frameCount % 1000 == 0 ==> |dedup| <= 10000
    {
      hide Log, SweepsSort, FrameCount, AtMostPerFrame;
      BoundBetween(init, inputs, r, |inputs|);
      assert inputs[..|inputs|] == inputs && Log(inputs)[..|Log(inputs)|] == Log(inputs);
    }

    lemma AllWithin(init: State, inputs: seq<Input>)
      requires Follows(init, inputs)
      ensures forall r: nat :: AtMostPerFrame(inputs, r) ==> |dedup| <= Max(10000, 1000 * r) + r * (frameCount % 1000)
    {
      hide Follows, AtMostPerFrame, Peak;
      forall r: nat | AtMostPerFrame(inputs, r) ensures |dedup| <= Max(10000, 1000 * r) + r * (frameCount % 1000) {
        CacheWithin(init, inputs, r);
      }
    }

    ghost predicate RulesDistinct()
      reads this
    {
      forall i, j :: 0 <= i < j < |rules| ==> rules[i] != rules[j]
    }

    constructor (window: pos, enabled: bool, capacity: nat)
      ensures Follows(Init(window, enabled), []) && alerts == [] && this.capacity == capacity
      ensures RulesDistinct() && rules == [] && !started
    {
      rules, started, dedup, dedupWindow, frameCount := [], false, map[], window, 0;
      this.enabled, alerts, this.capacity := enabled, [], capacity;
    }

    /** Registration keeps names distinct and leaves the list alone once the engine runs. */
    method Register(name: string, initOk: bool) returns (error: Option<RegisterError>)
      requires RulesDistinct()
      modifies this`rules
      ensures RulesDistinct()
      ensures error == if started then Some(EngineStarted)
                       else if name in old(rules) then Some(DuplicateName)
                       else if !initOk then Some(InitFailed)
                       else None
      ensures rules == if error.None? then old(rules) + [name] else old(rules)
    {
      if started {
        return Some(EngineStarted);
      }
      for i := 0 to |rules|
        invariant name !in rules[..i]
      {
        if rules[i] == name {
          return Some(DuplicateName);
        }
      }
      if !initOk {
        return Some(InitFailed);
      }
      rules := rules + [name];
      return None;
    }

    /** The first call of `Run` closes the rule list; any other one changes nothing. */
    method Start() returns (first: bool)
      modifies this`started
      ensures started && first == !old(started)
    {
      first := !started;
      started := true;
    }

    /** A positive window takes effect on the next decision; any other value is ignored. */
    method SetDedupWindow(d: int, ghost init: State, ghost inputs: seq<Input>)
      requires Follows(init, inputs)
      modifies this`dedupWindow
      ensures Follows(init, inputs + [Setting(SetWindow(d))])
      ensures dedupWindow == if d > 0 then d else old(dedupWindow)
    {
      hide Run, Log, SweepsSort, FrameCount;
      SettingNext(init, inputs, SetWindow(d));
      if d > 0 {
        dedupWindow := d;
      }
    }

    method SetEnabled(on: bool, ghost init: State, ghost inputs: seq<Input>)
      requires Follows(init, inputs)
      modifies this`enabled
      ensures Follows(init, inputs + [Setting(Op.SetEnabled(on))]) && enabled == on
    {
      hide Run, Log, SweepsSort, FrameCount;
      SettingNext(init, inputs, Op.SetEnabled(on));
      enabled := on;
    }

    /** An event that passes is stored; it then enters the queue, or is dropped when the queue is full. */
    method Emit(event: SecurityEvent, check: Time, store: Time)
      requires |alerts| <= capacity
      modifies this`dedup, this`alerts
      ensures View() == Step(old(View()), Op.Emit(event, check, store)) && |alerts| <= capacity
      ensures alerts == if Passes(old(View()), event, check) && |old(alerts)| < capacity
                        then old(alerts) + [event] else old(alerts)
    {
      if !enabled {
        return;
      }
      var key := DedupKey(event);
      if key in dedup && check - dedup[key] < dedupWindow {
        return;
      }
      dedup := dedup[key := store];
      if |alerts| < capacity {
        alerts := alerts + [event];
      }
    }

    method DropHalf(order: seq<string>)
      modifies this`dedup
      ensures dedup == DropOldestHalf(old(dedup), order)
    {
      for i := 0 to |order| / 2
        invariant dedup == old(dedup) - set j | 0 <= j < i :: order[j]
      {
        DropNext(old(dedup), order, i);
        dedup := dedup - {order[i]};
      }
    }

    method DropStale(now: Time)
      modifies this`dedup
      ensures dedup == Fresh(old(dedup), dedupWindow, now)
    {
      var cutoff := now - 2 * dedupWindow;
      var todo := dedup.Keys;
      while todo != {}
        invariant todo <= dedup.Keys
        invariant dedup == map k | k in old(dedup) && (k in todo || cutoff <= old(dedup)[k]) :: old(dedup)[k]
        decreases |todo|
      {
        var key :| key in todo;
        todo := todo - {key};
        if dedup[key] < cutoff {
          dedup := dedup - {key};
        }
      }
    }

    /** Removes stale entries, then the older half of what is left when that is still too much. */
    method SweepDedup(now: Time) returns (order: seq<string>)
      modifies this`dedup
      ensures Sorts(old(View()), now, order)
      ensures View() == Step(old(View()), Sweep(now, order))
    {
      hide OldestFirst, Fresh, DropOldestHalf;
      order := [];
      DropStale(now);
      if |dedup| > MAX_ENTRIES {
        order := SortByTime(dedup);
        DropHalf(order);
      }
    }

    /** Emits the events of one frame, in their order. */
    method EmitAll(emissions: seq<Emission>)
      requires |alerts| <= capacity
      modifies this`dedup, this`alerts
      ensures View() == Run(old(View()), emissions)
      ensures alerts == Queued(old(alerts), Passed(old(View()), emissions), capacity)
    {
      hide Run, Step, Passes, Passed, Queued;
      ghost var init := View();
      RunNothing(init);
      NothingQueued(init, alerts, capacity);
      for i := 0 to |emissions|
        invariant |alerts| <= capacity && unchanged(this`frameCount, this`dedupWindow, this`enabled)
        invariant View() == Run(init, emissions[..i])
        invariant alerts == Queued(old(alerts), Passed(init, emissions[..i]), capacity)
      {
        var op: Op := emissions[i];
        RunSnoc(init, emissions[..i], op);
        PassedSnoc(init, emissions[..i], op);
        QueuedNext(old(alerts), Passed(init, emissions[..i]), op.event, capacity);
        assert emissions[..i + 1] == emissions[..i] + [op];
        Emit(op.event, op.check, op.store);
      }
      assert emissions[..|emissions|] == emissions;
    }

    /** `processRule`: the events of a rule that does not panic. */
    method ProcessRule(result: RuleResult)
      requires |alerts| <= capacity
      modifies this`dedup, this`alerts
      ensures View() == if result.Events? then Run(old(View()), result.emissions) else old(View())
      ensures alerts ==
        if result.Events? then Queued(old(alerts), Passed(old(View()), result.emissions), capacity) else old(alerts)
    {
      if result.Events? {
        EmitAll(result.emissions);
      }
    }

    /** The events that every rule, in turn, makes of a frame. */
    method ProcessRules(results: seq<RuleResult>)
      requires |alerts| <= capacity
      modifies this`dedup, this`alerts
      ensures View() == Run(old(View()), Emissions(results))
      ensures alerts == Queued(old(alerts), Passed(old(View()), Emissions(results)), capacity)
    {
      hide Run, Emissions, Passed, Queued;
      ghost var init := View();
      RunNothing(init);
      NothingEmitted(results);
      NothingQueued(init, alerts, capacity);
      for i := 0 to |results|
        invariant |alerts| <= capacity && unchanged(this`frameCount, this`dedupWindow, this`enabled)
        invariant View() == Run(init, Emissions(results[..i]))
        invariant alerts == Queued(old(alerts), Passed(init, Emissions(results[..i])), capacity)
      {
        EmissionsSnoc(results, i);
        if results[i].Events? {
          ghost var emitted, more := Emissions(results[..i]), results[i].emissions;
          RunAppend(init, emitted, more);
          PassedAppend(init, emitted, more);
          QueuedAppend(old(alerts), Passed(init, emitted), Passed(Run(init, emitted), more), capacity);
        }
        ProcessRule(results[i]);
      }
      assert results[..|results|] == results;
    }

    /** `dispatch`: the frame's events, rule by rule, then a sweep on every thousandth frame. */
    method Dispatch(results: seq<RuleResult>, now: Time, ghost init: State, ghost inputs: seq<Input>)
      returns (order: seq<string>)
      requires Follows(init, inputs) && |results| == |rules|
      modifies this`dedup, this`alerts, this`frameCount
      ensures Follows(init, inputs + [Input.Dispatch(Emissions(results), now, order)])
      ensures forall r: nat :: AtMostPerFrame(inputs + [Input.Dispatch(Emissions(results), now, order)], r) ==>
        |dedup| <= Max(10000, 1000 * r) + r * (frameCount % 1000)
      ensures var more := inputs + [Input.Dispatch(Emissions(results), now, order)];
        var before, after := Passed(init, Log(inputs)), Passed(init, Log(more));
        before <= after && alerts == Queued(old(alerts), after[|before|..], capacity)
    {
      hide Sorts, Run, Step, Log, SweepsSort, FrameCount, Emissions, AtMostPerFrame, Peak, Passed, Queued;
      ghost var s, emissions := View(), Emissions(results);
      FrameThen(s, emissions);
      frameCount := frameCount + 1;
      ProcessRules(results);
      order := [];
      if frameCount % SWEEP_INTERVAL == 0 {
        order := SweepDedup(now);
      }
      DispatchNext(init, inputs, emissions, now, order);
      DispatchPasses(init, inputs, emissions, now, order);
      AllWithin(init, inputs + [Input.Dispatch(emissions, now, order)]);
    }

    /** The periodic sweep of the engine's loop. */
    method Tick(now: Time, ghost init: State, ghost inputs: seq<Input>) returns (order: seq<string>)
      requires Follows(init, inputs)
      modifies this`dedup
      ensures Follows(init, inputs + [Input.Tick(now, order)])
    {
      hide Sorts, Run, Log, SweepsSort, FrameCount;
      ghost var s := View();
      order := SweepDedup(now);
      ghost var input := Input.Tick(now, order);
      OpsSort(s, frameCount, input);
      InputNext(init, inputs, input);
      LogNext(inputs, input);
      RunOne(s, Sweep(now, order));
    }
  }
}
