/**
 * internal/capture/channel.go: round-robin channel hopping with capped exponential backoff.
 *
 * `Run` is driven by the outcomes of the channel switches it attempts. `Wait` is the specification: it
 * reads the wait of any hop off the outcomes and the configured dwells, without a running backoff.
 */
module Hopper {
  import opened Basics

  const FAILURES_THRESHOLD: nat := 5
  const MAX_BACKOFF: nat := 30 * SECOND

  datatype Entry = Entry(channel: int, dwell: int)

  /** One iteration: the channel tried and the time waited after it. */
  datatype Hop = Hop(channel: int, wait: int)

  datatype Config = Config(
    enabled: bool, dwell: int, channels2GHz: seq<int>, channels5GHz: seq<int>, include5GHz: bool,
    weightedDwell: Option<bool>, primary: seq<int>, multiplier: real)

  datatype ConfigError = HoppingDisabled | NoChannels

  datatype Result = Ok(entries: seq<Entry>) | Failure(error: ConfigError)

  // ---- The specification ----

  function Pow2(k: nat): nat { if k == 0 then 1 else 2 * Pow2(k - 1) }

  /** The length of the run of failures that ends with attempt `i`; 0 after a success. */
  function FailureRun(outcomes: seq<bool>, i: nat): (m: nat)
    requires i < |outcomes|
    ensures m <= i + 1
  {
    if outcomes[i] then 0 else if i == 0 then 1 else FailureRun(outcomes, i - 1) + 1
  }

  function Configured(chs: seq<Entry>, i: nat): int
    requires chs != []
  {
    chs[i % |chs|].dwell
  }

  /** The first attempt in `from..=i` whose configured dwell is not zero: the one that seeds the backoff. */
  function Seed(chs: seq<Entry>, from: nat, i: nat): (r: Option<nat>)
    requires chs != []
    ensures r.Some? ==> from <= r.value <= i
    decreases i - from
  {
    if from > i then None
    else if Configured(chs, from) != 0 then Some(from)
    else Seed(chs, from + 1, i)
  }

  function Backoff(chs: seq<Entry>, from: nat, i: nat): int
    requires chs != []
  {
    match Seed(chs, from, i)
    case None => 0
    case Some(j) => Min(Configured(chs, j) * Pow2(i - j + 1), MAX_BACKOFF)
  }

  /** The wait after attempt `i`: as configured, until the fifth failure in a row. */
  function Wait(chs: seq<Entry>, outcomes: seq<bool>, i: nat): int
    requires chs != [] && i < |outcomes|
  {
    var m := FailureRun(outcomes, i);
    if m < FAILURES_THRESHOLD then Configured(chs, i)
    else Backoff(chs, i - m + FAILURES_THRESHOLD, i)
  }

  /** `hops` are the hops of a run with these outcomes: entry by entry, round and round, each with its wait. */
  ghost predicate Scheduled(chs: seq<Entry>, outcomes: seq<bool>, hops: seq<Hop>)
    requires chs != []
  {
    && |hops| == |outcomes|
    && forall i :: 0 <= i < |hops| ==> hops[i] == Hop(chs[i % |chs|].channel, Wait(chs, outcomes, i))
  }

  // ---- Consequences of the specification ----

  /** The `m` attempts up to attempt `i` failed, and the one before them, if there is one, did not. */
  ghost predicate FailedInARow(outcomes: seq<bool>, i: nat, m: nat)
    requires i < |outcomes|
  {
    && m <= i + 1
    && (forall k :: i - m < k <= i ==> !outcomes[k])
    && (m == i + 1 || outcomes[i - m])
  }

  lemma {:induction false} FailureRunIs(outcomes: seq<bool>, i: nat, m: nat)
    requires i < |outcomes|
    ensures FailureRun(outcomes, i) == m <==> FailedInARow(outcomes, i, m)
  {
    if !outcomes[i] && 0 < i && 0 < m {
      FailureRunIs(outcomes, i - 1, m - 1);
    }
  }

  /** With a non-zero dwell at the fifth failure in a row, the m-th one waits min(d * 2^(m-4), 30s). */
  ghost predicate BacksOff(chs: seq<Entry>, outcomes: seq<bool>, hops: seq<Hop>)
    requires chs != [] && |hops| == |outcomes|
  {
    forall i: nat, m: nat :: i < |hops| && 5 <= m && FailedInARow(outcomes, i, m) ==>
      var d := chs[(i - m + 5) % |chs|].dwell;
      d != 0 ==> hops[i].wait == Min(d * Pow2(m - 4), 30_000_000_000)
  }

  lemma SeedFirst(chs: seq<Entry>, from: nat, i: nat)
    requires chs != [] && from <= i && Configured(chs, from) != 0
    ensures Backoff(chs, from, i) == Min(Configured(chs, from) * Pow2(i - from + 1), 30_000_000_000)
  {
  }

  lemma BacksOffAlways(chs: seq<Entry>, outcomes: seq<bool>, hops: seq<Hop>)
    requires chs != [] && Scheduled(chs, outcomes, hops)
    ensures BacksOff(chs, outcomes, hops)
  {
    hide Backoff, FailedInARow;
    forall i: nat, m: nat | i < |hops| && 5 <= m && FailedInARow(outcomes, i, m)
      ensures var d := chs[(i - m + 5) % |chs|].dwell;
        d != 0 ==> hops[i].wait == Min(d * Pow2(m - 4), 30_000_000_000) {
      FailureRunIs(outcomes, i, m);
      if Configured(chs, i - m + 5) != 0 {
        SeedFirst(chs, i - m + 5, i);
      }
    }
  }

  /** A hop whose last five outcomes are not all failures, or that has fewer, waits as configured. */
  ghost predicate KeepsDwell(chs: seq<Entry>, outcomes: seq<bool>, hops: seq<Hop>)
    requires chs != [] && |hops| == |outcomes|
  {
    forall i :: 0 <= i < |hops| && (i < 4 || exists k :: i - 5 < k <= i && outcomes[k]) ==>
      hops[i].wait == chs[i % |chs|].dwell
  }

  lemma KeepsDwellAlways(chs: seq<Entry>, outcomes: seq<bool>, hops: seq<Hop>)
    requires chs != [] && Scheduled(chs, outcomes, hops)
    ensures KeepsDwell(chs, outcomes, hops)
  {
    hide Backoff;
    forall i | 0 <= i < |hops| && (i < 4 || exists k :: i - 5 < k <= i && outcomes[k])
      ensures hops[i].wait == chs[i % |chs|].dwell {
      FailureRunIs(outcomes, i, FailureRun(outcomes, i));
    }
  }

  lemma FewerInARow(outcomes: seq<bool>, i: nat, m: nat)
    requires 0 < i < |outcomes| && 0 < m && FailedInARow(outcomes, i, m)
    ensures FailedInARow(outcomes, i - 1, m - 1)
  {
  }

  lemma {:induction false} SeedExtends(chs: seq<Entry>, from: nat, i: nat)
    requires chs != [] && from <= i + 1
    ensures Seed(chs, from, i + 1) ==
      if Seed(chs, from, i).Some? then Seed(chs, from, i)
      else if Configured(chs, i + 1) != 0 then Some(i + 1) else None
    decreases i + 1 - from
  {
    if from <= i && Configured(chs, from) == 0 {
      SeedExtends(chs, from + 1, i);
    }
  }

  lemma {:induction false} SeedNonZero(chs: seq<Entry>, from: nat, i: nat)
    requires chs != []
    ensures Seed(chs, from, i).Some? ==> Configured(chs, Seed(chs, from, i).value) != 0
    decreases i - from
  {
    if from <= i { SeedNonZero(chs, from + 1, i); }
  }

  lemma {:induction false} Pow2Positive(k: nat)
    ensures Pow2(k) > 0
  {
    if k > 0 { Pow2Positive(k - 1); }
  }

  lemma Doubled(d: int, p: nat)
    requires d != 0 && p > 0
    ensures d * p != 0 && d * (2 * p) == 2 * (d * p)
  {
  }

  /** Doubling the running backoff under the cap, or seeding it, follows the closed form. */
  lemma BackoffStep(chs: seq<Entry>, from: nat, i: nat)
    requires chs != [] && from <= i + 1
    ensures var b := Backoff(chs, from, i);
      && Backoff(chs, from, i + 1) == Min((if b == 0 then Configured(chs, i + 1) else b) * 2, MAX_BACKOFF)
      && (from == i + 1 ==> b == 0)
  {
    SeedExtends(chs, from, i);
    match Seed(chs, from, i)
    case None =>
      assert Pow2(1) == 2;
    case Some(j) =>
      var d, p := Configured(chs, j), Pow2(i - j + 1);
      SeedNonZero(chs, from, i);
      Pow2Positive(i - j + 1);
      Doubled(d, p);
      assert Pow2(i + 1 - j + 1) == 2 * p;
  }

  /**
   * From the fifth failure in a row on, each one waits twice as long as the one before, up to thirty
   * seconds; the fifth, and any that follows a wait of zero, doubles its own configured dwell.
   */
  lemma BackoffDoubles(chs: seq<Entry>, outcomes: seq<bool>, hops: seq<Hop>, i: nat, m: nat)
    requires chs != [] && Scheduled(chs, outcomes, hops)
    requires i < |hops| && 5 <= m && FailedInARow(outcomes, i, m)
    ensures var d := chs[i % |chs|].dwell;
      hops[i].wait == Min(2 * (if m == 5 || hops[i - 1].wait == 0 then d else hops[i - 1].wait), 30_000_000_000)
  {
    hide Backoff, FailedInARow;
    FailureRunIs(outcomes, i, m);
    BackoffStep(chs, i - m + 5, i - 1);
    if m > 5 {
      FewerInARow(outcomes, i, m);
      FailureRunIs(outcomes, i - 1, m - 1);
    }
  }

  lemma {:induction false} FailuresSince(outcomes: seq<bool>, i: nat, k: nat)
    requires i <= k < |outcomes| && outcomes[i]
    ensures FailureRun(outcomes, k) <= k - i
  {
    if i < k { FailuresSince(outcomes, i, k - 1); }
  }

  /** One success restores the configured dwell, and the next four failures keep it. */
  lemma SuccessRestoresDwell(chs: seq<Entry>, outcomes: seq<bool>, hops: seq<Hop>, i: nat, k: nat)
    requires chs != [] && Scheduled(chs, outcomes, hops)
    requires k < |hops| && i <= k < i + 5 && outcomes[i]
    ensures hops[k].wait == Configured(chs, k)
  {
    FailuresSince(outcomes, i, k);
  }

  lemma NoMultipleBelow(n: pos, d: int)
    ensures d != 0 ==> n * d >= n || n * d + n <= 0
  {
  }

  lemma ModUnique(n: pos, q: nat, r: nat)
    requires r < n
    ensures (n * q + r) % n == r
  {
    var x := n * q + r;
    var d := q - x / n;
    assert n * d == n * q - n * (x / n);
    NoMultipleBelow(n, d);
  }

  lemma SmallMod(x: nat, n: pos)
    requires x <= n
    ensures x % n == if x == n then 0 else x
  {
  }

  /** The slot after slot `t % n`, as the source computes it and without the modulus. */
  lemma NextSlot(t: nat, n: pos)
    ensures (t + 1) % n == (t % n + 1) % n == if t % n + 1 == n then 0 else t % n + 1
  {
    var q, r := t / n, t % n;
    assert t == n * q + r;
    SmallMod(r + 1, n);
    if r + 1 < n {
      ModUnique(n, q, r + 1);
    } else {
      ModUnique(n, q + 1, 0);
      assert n * (q + 1) == n * q + n;
    }
  }

  lemma {:induction false} SlotAhead(t: nat, k: nat, n: pos)
    requires k <= n
    ensures (t + k) % n == if t % n + k < n then t % n + k else t % n + k - n
  {
    if k > 0 {
      SlotAhead(t, k - 1, n);
      NextSlot(t + k - 1, n);
    }
  }

  /** Hop `t` tries entry `e` of the list. */
  ghost predicate Tries(chs: seq<Entry>, hops: seq<Hop>, t: int, e: int) {
    0 <= t < |hops| && 0 <= e < |chs| && t % |chs| == e && hops[t].channel == chs[e].channel
  }

  /** Any `n` consecutive hops over `n` entries try each entry exactly once, whatever their outcomes. */
  lemma EachEntryOnce(chs: seq<Entry>, outcomes: seq<bool>, hops: seq<Hop>, k: nat, e: nat)
    requires e < |chs| && Scheduled(chs, outcomes, hops) && k + |chs| <= |hops|
    ensures exists t :: k <= t < k + |chs| && Tries(chs, hops, t, e)
    ensures forall t, u :: k <= t < u < k + |chs| && Tries(chs, hops, t, e) ==> !Tries(chs, hops, u, e)
  {
    var n, r := |chs|, k % |chs|;
    var ahead := if r <= e then e - r else e + n - r;
    SlotAhead(k, ahead, n);
    assert Tries(chs, hops, k + ahead, e);
    forall t | k <= t < k + n && Tries(chs, hops, t, e) ensures t == k + ahead {
      SlotAhead(k, t - k, n);
    }
  }

  ghost function ChannelsOf(chs: seq<Entry>): seq<int> { seq(|chs|, i requires 0 <= i < |chs| => chs[i].channel) }

  /** The channels of the `|chs|` hops that start at hop `k`. */
  ghost function Round(chs: seq<Entry>, hops: seq<Hop>, k: nat): seq<int>
    requires k + |chs| <= |hops|
  {
    seq(|chs|, t requires 0 <= t < |chs| => hops[k + t].channel)
  }

  /** Wherever a round of hops starts, its channels are the list rotated: each as often as it is configured. */
  lemma RoundTriesAll(chs: seq<Entry>, outcomes: seq<bool>, hops: seq<Hop>, k: nat)
    requires chs != [] && Scheduled(chs, outcomes, hops) && k + |chs| <= |hops|
    ensures var all, r := ChannelsOf(chs), k % |chs|;
      Round(chs, hops, k) == all[r..] + all[..r]
    ensures multiset(Round(chs, hops, k)) == multiset(ChannelsOf(chs))
  {
    var n, all, round := |chs|, ChannelsOf(chs), Round(chs, hops, k);
    var r := k % n;
    forall t | 0 <= t < n ensures round[t] == (all[r..] + all[..r])[t] {
      SlotAhead(k, t, n);
    }
    assert round == all[r..] + all[..r];
    assert all == all[..r] + all[r..];
  }

  // ---- The hopper ----

  class ChannelHopper {
    const chs: seq<Entry>
    var idx: nat
    var current: int

    ghost predicate Valid() reads this { idx < |chs| }

    constructor (entries: seq<Entry>)
      requires entries != []
      ensures Valid() && chs == entries && idx == 0 && current == 0
    {
      chs, idx, current := entries, 0, 0;
    }

    method Reset()
      requires Valid()
      modifies this`idx
      ensures Valid() && idx == 0
    {
      idx := 0;
    }

    method Next() returns (channel: int, dwell: int)
      requires Valid()
      modifies this
      ensures Valid() && idx == (old(idx) + 1) % |chs|
      ensures Entry(channel, dwell) == chs[old(idx)] && current == channel
    {
      var entry := chs[idx];
      idx := (idx + 1) % |chs|;
      current := entry.channel;
      return entry.channel, entry.dwell;
    }

    /** The hopping loop over the outcomes of its channel switches, until the context is cancelled. */
    method Run(outcomes: seq<bool>) returns (hops: seq<Hop>)
      requires Valid()
      modifies this
      ensures Valid() && Scheduled(chs, outcomes, hops)
      ensures BacksOff(chs, outcomes, hops) && KeepsDwell(chs, outcomes, hops)
    {
      hide Backoff, BacksOff, KeepsDwell;
      Reset();
      hops := [];
      var consecutiveFailures, backoff: int := 0, 0;
      for i := 0 to |outcomes|
        invariant |hops| == i && idx == i % |chs|
        invariant forall j :: 0 <= j < i ==> hops[j] == Hop(chs[j % |chs|].channel, Wait(chs, outcomes, j))
        invariant consecutiveFailures == if i == 0 then 0 else FailureRun(outcomes, i - 1)
        invariant backoff == if consecutiveFailures < FAILURES_THRESHOLD then 0
                             else Backoff(chs, i - 1 - consecutiveFailures + FAILURES_THRESHOLD, i - 1)
      {
        NextSlot(i, |chs|);
        var channel, dwell := Next();
        if !outcomes[i] {
          consecutiveFailures := consecutiveFailures + 1;
          if consecutiveFailures >= FAILURES_THRESHOLD {
            BackoffStep(chs, i - consecutiveFailures + FAILURES_THRESHOLD, i - 1);
            if backoff == 0 {
              backoff := dwell;
            }
            backoff := Min(backoff * 2, MAX_BACKOFF);
            dwell := backoff;
          }
        } else {
          consecutiveFailures, backoff := 0, 0;
        }
        hops := hops + [Hop(channel, dwell)];
      }
      BacksOffAlways(chs, outcomes, hops);
      KeepsDwellAlways(chs, outcomes, hops);
    }
  }

  // ---- The channel list ----

  /** Conversion of a duration scaled by a multiplier: truncation toward zero. */
  function Truncate(x: real): int { if x >= 0.0 then x.Floor else -((-x).Floor) }

  lemma TruncateIs(x: real)
    ensures 0.0 <= x ==> Truncate(x) as real <= x < Truncate(x) as real + 1.0
    ensures x <= 0.0 ==> Truncate(x) as real - 1.0 < x <= Truncate(x) as real
  {
  }

  predicate Weighted(cfg: Config, ch: int) { cfg.weightedDwell == Some(true) && ch in cfg.primary }

  function Dwell2GHz(cfg: Config, ch: int): int {
    if Weighted(cfg, ch) then Truncate(cfg.dwell as real * cfg.multiplier) else cfg.dwell
  }

  /** The list covers the 2.4 GHz channels, then the 5 GHz ones when included, in configuration order. */
  method NewEntries(cfg: Config) returns (r: Result)
    ensures r == Failure(HoppingDisabled) <==> !cfg.enabled
    ensures r == Failure(NoChannels) <==>
      cfg.enabled && cfg.channels2GHz == [] && (!cfg.include5GHz || cfg.channels5GHz == [])
    ensures r.Ok? ==>
      var es, n, m := r.entries, |cfg.channels2GHz|, if cfg.include5GHz then |cfg.channels5GHz| else 0;
      && |es| == n + m > 0
      && (forall i :: 0 <= i < n ==>
            var ch := cfg.channels2GHz[i];
            var scaled := cfg.weightedDwell == Some(true) && ch in cfg.primary;
            es[i] == Entry(ch, if scaled then Truncate(cfg.dwell as real * cfg.multiplier) else cfg.dwell))
      && (forall i :: n <= i < n + m ==> es[i] == Entry(cfg.channels5GHz[i - n], cfg.dwell))
  {
    if !cfg.enabled {
      return Failure(HoppingDisabled);
    }
    var entries: seq<Entry> := [];
    for i := 0 to |cfg.channels2GHz|
      invariant |entries| == i
      invariant forall j :: 0 <= j < i ==> entries[j] == Entry(cfg.channels2GHz[j], Dwell2GHz(cfg, cfg.channels2GHz[j]))
    {
      var ch, dwell := cfg.channels2GHz[i], cfg.dwell;
      if cfg.weightedDwell == Some(true) && ch in cfg.primary {
        dwell := Truncate(dwell as real * cfg.multiplier);
      }
      entries := entries + [Entry(ch, dwell)];
    }
    if cfg.include5GHz {
      ghost var first := entries;
      for i := 0 to |cfg.channels5GHz|
        invariant |entries| == |first| + i && entries[..|first|] == first
        invariant forall j :: 0 <= j < i ==> entries[|first| + j] == Entry(cfg.channels5GHz[j], cfg.dwell)
      {
        entries := entries + [Entry(cfg.channels5GHz[i], cfg.dwell)];
      }
      assert forall i :: 0 <= i < |first| ==> entries[i] == entries[..|first|][i];
      assert forall i :: |first| <= i < |entries| ==> entries[|first| + (i - |first|)] == entries[i];
    }
    if entries == [] {
      return Failure(NoChannels);
    }
    return Ok(entries);
  }
}
