/**
 * internal/api/auth.go: the per-address limiter of failed logins.
 *
 * The limiter prunes failures in place, clears them when it locks an address out, and deletes
 * entries in a sweep of the whole map on every check. `Naive` is the specification: it never
 * forgets a failure or a lockout except at a reset.
 */
module LoginLimiter {
  import opened Basics

  const WINDOW: nat := 15 * MINUTE
  const THRESHOLD: nat := 5
  const LOCKOUT: nat := 15 * MINUTE

  /** One record: the retained failures, and the end of the lockout (0, Go's zero time, when never locked). */
  datatype Record = Record(failures: seq<Time>, lockedTill: Time)

  type Entry = Option<Record>

  type State = map<string, Record>

  datatype Op =
    | Locked(ip: string, now: Time)
    | Failure(ip: string, now: Time)
    | Success(ip: string)

  // ---- The limiter's bookkeeping ----

  function Prune(failures: seq<Time>, now: Time): seq<Time> { From(failures, now - WINDOW + 1) }

  /** Pruning one record, which disappears when nothing is left in it. */
  function Visit(rec: Record, now: Time): Entry {
    var failures := Prune(rec.failures, now);
    if failures == [] && rec.lockedTill < now then None else Some(rec.(failures := failures))
  }

  function Swept(s: State, now: Time): State {
    map ip | ip in s && Visit(s[ip], now).Some? :: Visit(s[ip], now).value
  }

  function Failed(e: Entry, now: Time): Record {
    var rec := match e case None => Record([], 0) case Some(r) => r;
    var failures := Prune(rec.failures, now) + [now];
    if |failures| >= THRESHOLD then Record([], now + LOCKOUT) else rec.(failures := failures)
  }

  function At(s: State, ip: string): Entry { if ip in s then Some(s[ip]) else None }

  function With(s: State, ip: string, e: Entry): State {
    match e
    case None => s - {ip}
    case Some(rec) => s[ip := rec]
  }

  function Step(s: State, op: Op): State {
    match op
    case Locked(ip, now) =>
      var swept := Swept(s, now);
      if ip !in swept || now < swept[ip].lockedTill then swept
      else With(swept, ip, Visit(swept[ip], now))
    case Failure(ip, now) => s[ip := Failed(At(s, ip), now)]
    case Success(ip) => s - {ip}
  }

  /** What `locked` answers. */
  predicate Answer(s: State, ip: string, now: Time) {
    ip in Swept(s, now) && now < Swept(s, now)[ip].lockedTill
  }

  function Run(log: seq<Op>): State {
    if log == [] then map[] else Step(Run(log[..|log| - 1]), log[|log| - 1])
  }

  // ---- The specification ----

  /** Every failure since the last reset, and the instant of every lockout since the last success. */
  datatype History = History(pending: seq<Time>, lockouts: seq<Time>)

  ghost function NaiveStep(h: History, op: Op, ip: string): History {
    if op.ip != ip then h
    else match op
      case Locked(_, _) => h
      case Success(_) => History([], [])
      case Failure(_, now) =>
        if |From(h.pending + [now], now - WINDOW + 1)| >= THRESHOLD
        then History([], h.lockouts + [now])
        else h.(pending := h.pending + [now])
  }

  ghost function Naive(log: seq<Op>, ip: string): History {
    if log == [] then History([], []) else NaiveStep(Naive(log[..|log| - 1], ip), log[|log| - 1], ip)
  }

  /** Some lockout is still running. */
  ghost predicate LockedOut(h: History, now: Time) {
    exists i :: 0 <= i < |h.lockouts| && now < h.lockouts[i] + LOCKOUT
  }

  /** The limiter reads a clock that never goes back. */
  ghost predicate Ordered(log: seq<Op>) {
    forall i, j :: 0 <= i < j < |log| && !log[i].Success? && !log[j].Success? ==> log[i].now <= log[j].now
  }

  // ---- Refinement ----

  /** The last clock reading. */
  ghost function Latest(log: seq<Op>): Time {
    if log == [] then 0
    else if log[|log| - 1].Success? then Latest(log[..|log| - 1])
    else log[|log| - 1].now
  }

  lemma {:induction false} LatestIsLast(log: seq<Op>, op: Op)
    requires Ordered(log + [op]) && !op.Success?
    ensures Latest(log) <= op.now
  {
    if log != [] {
      var before, last := log[..|log| - 1], log[|log| - 1];
      assert (log + [op])[|log| - 1] == last && (log + [op])[|log|] == op;
      if last.Success? {
        assert forall i :: 0 <= i < |before| ==> (before + [op])[i] == (log + [op])[i];
        LatestIsLast(before, op);
      }
    }
  }

  /** What a step does to the entry of one address. */
  function EntryAfter(e: Entry, op: Op, mine: bool): Entry {
    match op
    case Locked(_, now) =>
      if e.None? then None
      else
        var v := Visit(e.value, now);
        if !mine || v.None? || now < v.value.lockedTill then v else Visit(v.value, now)
    case Failure(_, now) => if mine then Some(Failed(e, now)) else e
    case Success(_) => if mine then None else e
  }

  lemma StepEntry(s: State, op: Op, ip: string)
    ensures At(Step(s, op), ip) == EntryAfter(At(s, ip), op, op.ip == ip)
  {
    hide Visit, Failed;
  }

  ghost function Kept(e: Entry): seq<Time> { if e.Some? then e.value.failures else [] }

  ghost predicate Holds(e: Entry, now: Time) { e.Some? && now < e.value.lockedTill }

  /** From `latest` on, the entry and the history count the same failures and the same lockouts. */
  ghost predicate Tracks(e: Entry, h: History, latest: Time) {
    && From(Kept(e), latest - WINDOW + 1) == From(h.pending, latest - WINDOW + 1)
    && (forall t: Time :: latest <= t ==> (Holds(e, t) <==> LockedOut(h, t)))
    && UpTo(h.lockouts, latest)
  }

  lemma TracksLater(e: Entry, h: History, latest: Time, now: Time)
    requires Tracks(e, h, latest) && latest <= now
    ensures Tracks(e, h, now)
  {
    FromFrom(Kept(e), latest - WINDOW + 1, now - WINDOW + 1);
    FromFrom(h.pending, latest - WINDOW + 1, now - WINDOW + 1);
  }

  lemma VisitTracks(rec: Record, h: History, now: Time)
    requires Tracks(Some(rec), h, now)
    ensures Tracks(Visit(rec, now), h, now)
    ensures Visit(rec, now).Some? ==> Visit(rec, now).value.lockedTill == rec.lockedTill
  {
    FromFrom(rec.failures, now - WINDOW + 1, now - WINDOW + 1);
    assert From([], now - WINDOW + 1) == [];
  }

  /** The limiter and the specification agree on whether a failure fills the window. */
  lemma FailCounts(e: Entry, h: History, now: Time)
    requires Tracks(e, h, now)
    ensures From(h.pending + [now], now - WINDOW + 1) == Prune(Kept(e), now) + [now]
    ensures From(Prune(Kept(e), now) + [now], now - WINDOW + 1) == Prune(Kept(e), now) + [now]
  {
    FromSnoc(h.pending, now, now - WINDOW + 1);
    FromFrom(Kept(e), now - WINDOW + 1, now - WINDOW + 1);
    FromSnoc(Prune(Kept(e), now), now, now - WINDOW + 1);
  }

  /** A new lockout outlasts every earlier one. */
  lemma NewLockout(h: History, now: Time, t: Time)
    requires UpTo(h.lockouts, now)
    ensures LockedOut(History([], h.lockouts + [now]), t) <==> t < now + LOCKOUT
  {
    assert (h.lockouts + [now])[|h.lockouts|] == now;
  }

  lemma SameLockouts(h: History, h': History, t: Time)
    requires h.lockouts == h'.lockouts
    ensures LockedOut(h, t) <==> LockedOut(h', t)
  {
  }

  lemma FailTracks(e: Entry, h: History, now: Time, ip: string)
    requires Tracks(e, h, now)
    ensures Tracks(Some(Failed(e, now)), NaiveStep(h, Failure(ip, now), ip), now)
  {
    hide LockedOut, Prune, From;
    FailCounts(e, h, now);
    var h' := NaiveStep(h, Failure(ip, now), ip);
    forall t: Time | now <= t ensures Holds(Some(Failed(e, now)), t) <==> LockedOut(h', t) {
      SameLockouts(h, h.(pending := h.pending + [now]), t);
      NewLockout(h, now, t);
      assert Holds(e, t) <==> LockedOut(h, t);
    }
  }

  lemma NothingTracks(latest: Time)
    ensures Tracks(None, History([], []), latest)
  {
  }

  lemma {:induction false} RunTracks(log: seq<Op>, ip: string)
    requires Ordered(log)
    ensures Tracks(At(Run(log), ip), Naive(log, ip), Latest(log))
  {
    if log != [] {
      hide Step, Tracks;
      var before, op := log[..|log| - 1], log[|log| - 1];
      var e, h := At(Run(before), ip), Naive(before, ip);
      RunTracks(before, ip);
      StepEntry(Run(before), op, ip);
      assert log == before + [op];
      match op {
        case Locked(_, now) =>
          LatestIsLast(before, op);
          TracksLater(e, h, Latest(before), now);
          if e.Some? {
            VisitTracks(e.value, h, now);
            if Visit(e.value, now).Some? { VisitTracks(Visit(e.value, now).value, h, now); }
          }
        case Failure(_, now) =>
          LatestIsLast(before, op);
          TracksLater(e, h, Latest(before), now);
          if op.ip == ip { FailTracks(e, h, now, ip); }
        case Success(_) =>
          if op.ip == ip { NothingTracks(Latest(before)); }
      }
    }
  }

  /**
   * The limiter is its specification: on every run under a steady clock, an address is reported
   * locked exactly when a lockout since its last success is still running.
   */
  lemma LockedIffLockedOut(log: seq<Op>, ip: string, now: Time)
    requires Ordered(log + [Locked(ip, now)])
    ensures Answer(Run(log), ip, now) <==> LockedOut(Naive(log, ip), now)
  {
    assert forall i :: 0 <= i < |log| ==> (log + [Locked(ip, now)])[i] == log[i];
    RunTracks(log, ip);
    LatestIsLast(log, Locked(ip, now));
    TracksLater(At(Run(log), ip), Naive(log, ip), Latest(log), now);
  }

  // ---- The rate bound for checked attempts ----

  ghost predicate FailsAt(log: seq<Op>, ip: string, k: nat) {
    k < |log| && log[k].Failure? && log[k].ip == ip
  }

  /** The operation at `c` is a check of the address that passed. */
  ghost predicate PassedCheck(log: seq<Op>, ip: string, c: nat) {
    c < |log| && log[c].Locked? && log[c].ip == ip && !Answer(Run(log[..c]), ip, log[c].now)
  }

  /** The check at `c` passed, and no failure of this address is recorded between it and `k`. */
  ghost predicate CheckedBy(log: seq<Op>, ip: string, c: nat, k: nat) {
    && c < k <= |log| && PassedCheck(log, ip, c)
    && forall j :: c < j < k ==> !FailsAt(log, ip, j)
  }

  /** Attempts from this address are sequential: each recorded failure follows its own passed check. */
  ghost predicate Sequential(log: seq<Op>, ip: string) {
    forall k {:trigger FailsAt(log, ip, k)} :: FailsAt(log, ip, k) ==> exists c :: CheckedBy(log, ip, c, k)
  }

  /** Failures of this address recorded in `log[a..b]`. */
  ghost function FailuresIn(log: seq<Op>, ip: string, a: nat, b: nat): nat
    requires a <= b <= |log|
  {
    if a == b then 0 else FailuresIn(log, ip, a, b - 1) + (if FailsAt(log, ip, b - 1) then 1 else 0)
  }

  lemma NaiveNext(log: seq<Op>, ip: string, k: nat)
    requires k < |log|
    ensures Naive(log[..k + 1], ip) == NaiveStep(Naive(log[..k], ip), log[k], ip)
  {
    assert log[..k + 1][..k] == log[..k];
  }

  /** Without a recorded failure no lockout begins; a success may end them all. */
  lemma {:induction false} LockoutsComeFromFailures(log: seq<Op>, ip: string, c: nat, k: nat)
    requires c <= k <= |log| && forall j :: c <= j < k ==> !FailsAt(log, ip, j)
    ensures Naive(log[..k], ip).lockouts == [] || Naive(log[..k], ip).lockouts == Naive(log[..c], ip).lockouts
  {
    if c < k {
      NaiveNext(log, ip, k - 1);
      assert !FailsAt(log, ip, k - 1);
      LockoutsComeFromFailures(log, ip, c, k - 1);
    }
  }

  ghost predicate LockoutSince(h: History, start: Time) {
    exists i :: 0 <= i < |h.lockouts| && start <= h.lockouts[i]
  }

  /** A check that passes finds no lockout still running. */
  lemma CheckPassed(log: seq<Op>, ip: string, c: nat)
    requires Ordered(log) && PassedCheck(log, ip, c)
    ensures !LockedOut(Naive(log[..c], ip), log[c].now)
  {
    hide Answer, LockedOut, Naive, Run;
    assert log[..c] + [log[c]] == log[..c + 1];
    assert log[c] == Locked(ip, log[c].now);
    LockedIffLockedOut(log[..c], ip, log[c].now);
  }

  /** A passed check rules out a lockout begun less than its length ago. */
  lemma CheckExcludesLockout(log: seq<Op>, ip: string, c: nat, k: nat, start: Time)
    requires Ordered(log) && k < |log| && CheckedBy(log, ip, c, k) && FailsAt(log, ip, k)
    requires log[k].now < start + LOCKOUT
    ensures !LockoutSince(Naive(log[..k], ip), start)
  {
    hide NaiveStep, Run;
    LockoutsComeFromFailures(log, ip, c, k);
    CheckPassed(log, ip, c);
  }

  // ---- Any number of attempts at a time ----

  /** Recording the failure at `k` locks the address out. */
  ghost predicate Locks(log: seq<Op>, ip: string, k: nat) {
    FailsAt(log, ip, k)
    && |From(Naive(log[..k], ip).pending + [log[k].now], log[k].now - WINDOW + 1)| >= THRESHOLD
  }

  lemma {:induction false} FromShorter(ts: seq<Time>, lo: int, hi: int)
    requires lo <= hi
    ensures |From(ts, hi)| <= |From(ts, lo)|
  {
    if ts != [] {
      FromShorter(ts[..|ts| - 1], lo, hi);
    }
  }

  /** The operations `a..b` hold no success of the address, and its failures lie within one window from `start`. */
  ghost predicate Span(log: seq<Op>, ip: string, a: nat, b: nat, start: Time) {
    && a <= b <= |log|
    && (forall k :: a <= k < b ==> log[k] != Success(ip))
    && (forall k :: a <= k < b && FailsAt(log, ip, k) ==> start <= log[k].now < start + WINDOW)
  }

  /** A failure that does not lock the address out joins the pending ones, and they stay fewer than five. */
  lemma PendingGrows(pending: seq<Time>, n: nat, now: Time, start: Time)
    requires n <= |From(pending, start)| && now < start + WINDOW && start <= now
    requires |From(pending + [now], now - WINDOW + 1)| < THRESHOLD
    ensures n + 1 <= |From(pending + [now], start)| && n + 1 < THRESHOLD
  {
    FromSnoc(pending, now, start);
    FromShorter(pending + [now], now - WINDOW + 1, start);
  }

  lemma UnlockedNext(log: seq<Op>, ip: string, a: nat, b: nat, start: Time)
    requires a < b && Span(log, ip, a, b, start) && !Locks(log, ip, b - 1)
    requires var pending := Naive(log[..b - 1], ip).pending;
      FailuresIn(log, ip, a, b - 1) <= |From(pending, start)| && FailuresIn(log, ip, a, b - 1) < THRESHOLD
    ensures FailuresIn(log, ip, a, b) <= |From(Naive(log[..b], ip).pending, start)|
    ensures FailuresIn(log, ip, a, b) < THRESHOLD
  {
    hide From, Naive;
    NaiveNext(log, ip, b - 1);
    assert log[b - 1] != Success(ip);
    if FailsAt(log, ip, b - 1) {
      PendingGrows(Naive(log[..b - 1], ip).pending, FailuresIn(log, ip, a, b - 1), log[b - 1].now, start);
    }
  }

  /** As long as no failure of a span locks the address out, all of them are pending, and they are fewer than five. */
  lemma {:induction false} UnlockedSpan(log: seq<Op>, ip: string, a: nat, b: nat, start: Time)
    requires Span(log, ip, a, b, start) && forall k :: a <= k < b ==> !Locks(log, ip, k)
    ensures FailuresIn(log, ip, a, b) < THRESHOLD
    ensures FailuresIn(log, ip, a, b) <= |From(Naive(log[..b], ip).pending, start)|
  {
    hide From, Naive, Locks;
    if a < b {
      UnlockedSpan(log, ip, a, b - 1, start);
      UnlockedNext(log, ip, a, b, start);
    }
  }

  /** A lockout stays in the history until a success. */
  lemma {:induction false} LockStays(log: seq<Op>, ip: string, p: nat, k: nat)
    requires p < k <= |log| && Locks(log, ip, p) && forall j :: p < j < k ==> log[j] != Success(ip)
    ensures log[p].now in Naive(log[..k], ip).lockouts
  {
    hide From;
    NaiveNext(log, ip, k - 1);
    if p + 1 < k {
      LockStays(log, ip, p, k - 1);
    }
  }

  /** `checkOf` gives each recorded failure of the address the passed check of its attempt. */
  ghost predicate Checked(log: seq<Op>, ip: string, checkOf: nat -> nat) {
    forall k: nat :: FailsAt(log, ip, k) ==> checkOf(k) < k && PassedCheck(log, ip, checkOf(k))
  }

  /** The failures still to be recorded by attempts that were checked before operation `p`. */
  ghost function InFlight(log: seq<Op>, ip: string, checkOf: nat -> nat, p: nat): set<nat> {
    set k: nat | p <= k < |log| && FailsAt(log, ip, k) && checkOf(k) < p
  }

  /** After a lockout only attempts that were checked before it record failures. */
  lemma LockedSpan(log: seq<Op>, ip: string, checkOf: nat -> nat, p: nat, k: nat, start: Time)
    requires Ordered(log) && Checked(log, ip, checkOf) && Locks(log, ip, p) && start <= log[p].now
    requires p <= k && FailsAt(log, ip, k) && log[k].now < start + LOCKOUT
    requires forall j :: p < j < k ==> log[j] != Success(ip)
    ensures k in InFlight(log, ip, checkOf, p)
  {
    var c := checkOf(k);
    if p < c {
      LockStays(log, ip, p, c);
      CheckPassed(log, ip, c);
      assert false;
    }
    assert c != p;
  }

  /** The operations of `a..b` that record a failure of the address. */
  ghost function FailuresAt(log: seq<Op>, ip: string, a: nat, b: nat): set<nat> {
    set k: nat | a <= k < b && FailsAt(log, ip, k)
  }

  lemma {:induction false} FailuresCounted(log: seq<Op>, ip: string, a: nat, b: nat)
    requires a <= b <= |log|
    ensures FailuresIn(log, ip, a, b) == |FailuresAt(log, ip, a, b)|
  {
    if a == b {
      assert FailuresAt(log, ip, a, b) == {};
    } else {
      FailuresCounted(log, ip, a, b - 1);
      assert FailuresAt(log, ip, a, b)
          == FailuresAt(log, ip, a, b - 1) + if FailsAt(log, ip, b - 1) then {b - 1} else {};
    }
  }

  lemma {:induction false} FailuresSplit(log: seq<Op>, ip: string, a: nat, p: nat, b: nat)
    requires a <= p <= b <= |log|
    ensures FailuresIn(log, ip, a, b) == FailuresIn(log, ip, a, p) + FailuresIn(log, ip, p, b)
  {
    if p < b {
      FailuresSplit(log, ip, a, p, b - 1);
    }
  }

  /** The first failure of a span that locks the address out; its end when there is none. */
  ghost function FirstLock(log: seq<Op>, ip: string, a: nat, b: nat): (p: nat)
    requires a <= b
    ensures a <= p <= b && (p < b ==> Locks(log, ip, p))
    ensures forall k :: a <= k < p ==> !Locks(log, ip, k)
    decreases b - a
  {
    if a == b || Locks(log, ip, a) then a else FirstLock(log, ip, a + 1, b)
  }

  lemma LocksFails(log: seq<Op>, ip: string, p: nat)
    requires Locks(log, ip, p)
    ensures FailsAt(log, ip, p)
  {
  }

  /**
   * The rate bound for overlapping attempts: when at most `c` attempts of an address that will record a
   * failure are between check and record at any time, its failures within any fifteen minutes without a
   * success are at most four more than `c`.
   */
  lemma FailuresBounded(log: seq<Op>, ip: string, checkOf: nat -> nat, c: nat, a: nat, b: nat, start: Time)
    requires Ordered(log) && Checked(log, ip, checkOf) && Span(log, ip, a, b, start)
    requires forall p: nat :: |InFlight(log, ip, checkOf, p)| <= c
    ensures FailuresIn(log, ip, a, b) <= 4 + c
  {
    hide Ordered, Checked, Locks, InFlight;
    var p := FirstLock(log, ip, a, b);
    FailuresSplit(log, ip, a, p, b);
    UnlockedSpan(log, ip, a, p, start);
    FailuresCounted(log, ip, p, b);
    if p < b {
      LocksFails(log, ip, p);
      forall k | k in FailuresAt(log, ip, p, b) ensures k in InFlight(log, ip, checkOf, p) {
        LockedSpan(log, ip, checkOf, p, k, start);
      }
      SubsetSize(FailuresAt(log, ip, p, b), InFlight(log, ip, checkOf, p));
    }
  }

  // ---- One attempt at a time ----

  ghost function CheckOf(log: seq<Op>, ip: string, k: nat): (c: nat)
    ensures Sequential(log, ip) && FailsAt(log, ip, k) ==> CheckedBy(log, ip, c, k)
  {
    if c: nat :| CheckedBy(log, ip, c, k) then c else 0
  }

  lemma NoFailureBetween(log: seq<Op>, ip: string, c: nat, k: nat, l: nat)
    requires CheckedBy(log, ip, c, k) && FailsAt(log, ip, l)
    ensures !(c < l < k)
  {
  }

  lemma AtMostOne(s: set<nat>)
    requires forall x, y :: x in s && y in s ==> x == y
    ensures |s| <= 1
  {
    if x :| x in s {
      assert s == {x};
    }
  }

  /** Sequential attempts are in flight one at a time. */
  lemma SequentialInFlight(log: seq<Op>, ip: string, checkOf: nat -> nat, p: nat)
    requires forall k: nat :: FailsAt(log, ip, k) ==> CheckedBy(log, ip, checkOf(k), k)
    ensures |InFlight(log, ip, checkOf, p)| <= 1
  {
    hide CheckedBy;
    var flying := InFlight(log, ip, checkOf, p);
    forall k, l | k in flying && l in flying ensures k == l {
      NoFailureBetween(log, ip, checkOf(k), k, l);
      NoFailureBetween(log, ip, checkOf(l), l, k);
    }
    AtMostOne(flying);
  }

  /**
   * The whole-run rate bound: sequential attempts from one address, without a success, record at
   * most five failures within any fifteen minutes, whatever sweeps and other addresses do meanwhile.
   */
  lemma AtMostFiveFailures(log: seq<Op>, ip: string, a: nat, b: nat, start: Time)
    requires a <= b <= |log| && Ordered(log) && Sequential(log, ip)
    requires forall k :: a <= k < b ==> log[k] != Success(ip)
    requires forall k :: a <= k < b && FailsAt(log, ip, k) ==> start <= log[k].now < start + 900_000_000_000
    ensures FailuresIn(log, ip, a, b) <= 5
  {
    hide Answer, Ordered, InFlight;
    var checkOf := (k: nat) => CheckOf(log, ip, k);
    forall p: nat ensures |InFlight(log, ip, checkOf, p)| <= 1 {
      SequentialInFlight(log, ip, checkOf, p);
    }
    FailuresBounded(log, ip, checkOf, 1, a, b, start);
  }

  // ---- Attempts as `handleLogin` makes them ----

  /** How far an attempt that is not locked out gets. */
  datatype Outcome = Unreadable | WrongCredentials | Unserved | Granted

  datatype Attempt = Attempt(ip: string, checkedAt: Time, outcome: Outcome, recordedAt: Time)

  /** The limiter calls of one attempt: the check comes first, and only a passed check is followed by a record. */
  function Login(s: State, a: Attempt): seq<Op> {
    [Op.Locked(a.ip, a.checkedAt)]
    + if Answer(s, a.ip, a.checkedAt) then []
      else match a.outcome
        case WrongCredentials => [Op.Failure(a.ip, a.recordedAt)]
        case Granted => [Op.Success(a.ip)]
        case _ => []
  }

  ghost function Logins(attempts: seq<Attempt>): seq<Op> {
    if attempts == [] then []
    else
      var log := Logins(attempts[..|attempts| - 1]);
      log + Login(Run(log), attempts[|attempts| - 1])
  }

  lemma CheckedByPrefix(log: seq<Op>, more: seq<Op>, ip: string, c: nat, k: nat)
    requires CheckedBy(log, ip, c, k)
    ensures CheckedBy(log + more, ip, c, k)
  {
    hide Answer;
    assert (log + more)[..c] == log[..c];
    forall j: nat | c < j < k ensures !FailsAt(log + more, ip, j) {
      assert !FailsAt(log, ip, j) && (log + more)[j] == log[j];
    }
  }

  /** The handler keeps the condition of the rate bound: attempts handled one after another are checked. */
  lemma {:induction false} LoginsAreSequential(attempts: seq<Attempt>, ip: string)
    ensures Sequential(Logins(attempts), ip)
  {
    hide Answer;
    if attempts != [] {
      var log, a := Logins(attempts[..|attempts| - 1]), attempts[|attempts| - 1];
      var ops := Login(Run(log), a);
      LoginsAreSequential(attempts[..|attempts| - 1], ip);
      forall k: nat | FailsAt(log + ops, ip, k) ensures exists c :: CheckedBy(log + ops, ip, c, k) {
        if k < |log| {
          assert FailsAt(log, ip, k);
          var c :| CheckedBy(log, ip, c, k);
          CheckedByPrefix(log, ops, ip, c, k);
        } else {
          assert (log + ops)[k] == ops[k - |log|];
          assert (log + ops)[|log|] == ops[0] && (log + ops)[..|log|] == log;
          assert CheckedBy(log + ops, ip, |log|, k);
        }
      }
    }
  }

  // ---- Which attempts are refused ----

  /** The attempts come one after another under a clock that does not go back. */
  ghost predicate Steady(attempts: seq<Attempt>) {
    && (forall k :: 0 <= k < |attempts| ==> attempts[k].checkedAt <= attempts[k].recordedAt)
    && (forall j, k :: 0 <= j < k < |attempts| ==> attempts[j].recordedAt <= attempts[k].checkedAt)
  }

  /** Of the first `k` attempts one of `ip` was the fifth wrong one less than fifteen minutes before `now`. */
  ghost predicate FifthWithin(attempts: seq<Attempt>, ip: string, k: nat, now: Time)
    requires k <= |attempts|
    decreases k, 0
  {
    exists j: nat ::
      j < k && attempts[j].ip == ip && Fifth(attempts, j) && now < attempts[j].recordedAt + 900_000_000_000
  }

  /** An attempt of an address is refused while the fifth wrong one of that address is that recent. */
  ghost predicate Refused(attempts: seq<Attempt>, k: nat)
    requires k < |attempts|
    decreases k, 1
  {
    FifthWithin(attempts, attempts[k].ip, k, attempts[k].checkedAt)
  }

  ghost predicate Wrong(attempts: seq<Attempt>, k: nat)
    requires k < |attempts|
    decreases k, 2
  {
    attempts[k].outcome.WrongCredentials? && !Refused(attempts, k)
  }

  /** A wrong attempt with which five, all since the last grant or the last fifth, lie within fifteen minutes. */
  ghost predicate Fifth(attempts: seq<Attempt>, k: nat)
    requires k < |attempts|
    decreases k, 4
  {
    && Wrong(attempts, k)
    && |Counting(attempts, attempts[k].ip, k, attempts[k].recordedAt - 900_000_000_000 + 1)| + 1 >= 5
  }

  /** The attempt ends the count of its address: it is granted, or it is itself a fifth wrong one. */
  ghost predicate Ends(attempts: seq<Attempt>, k: nat)
    requires k < |attempts|
    decreases k, 5
  {
    Fifth(attempts, k) || (attempts[k].outcome.Granted? && !Refused(attempts, k))
  }

  /** The wrong attempts of `ip` among the first `k` that still count and were recorded from `start` on. */
  ghost function Counting(attempts: seq<Attempt>, ip: string, k: nat, start: int): set<nat>
    requires k <= |attempts|
    decreases k, 3
  {
    set j: nat |
      && j < k && attempts[j].ip == ip && Wrong(attempts, j) && start <= attempts[j].recordedAt
      && forall i: nat :: j <= i < k && attempts[i].ip == ip ==> !Ends(attempts, i)
  }

  lemma FifthWithinNext(attempts: seq<Attempt>, ip: string, k: nat, now: Time)
    requires k < |attempts|
    ensures FifthWithin(attempts, ip, k + 1, now) <==>
      FifthWithin(attempts, ip, k, now)
      || (attempts[k].ip == ip && Fifth(attempts, k) && now < attempts[k].recordedAt + 900_000_000_000)
  {
    hide Fifth;
    var here := attempts[k].ip == ip && Fifth(attempts, k) && now < attempts[k].recordedAt + 900_000_000_000;
    if FifthWithin(attempts, ip, k + 1, now) && !here {
      var j: nat :|
        j < k + 1 && attempts[j].ip == ip && Fifth(attempts, j) && now < attempts[j].recordedAt + 900_000_000_000;
      assert j < k;
    }
  }

  lemma CountingNext(attempts: seq<Attempt>, ip: string, k: nat, start: int)
    requires k < |attempts|
    ensures Counting(attempts, ip, k + 1, start) ==
      if attempts[k].ip == ip && Ends(attempts, k) then {}
      else if attempts[k].ip == ip && Wrong(attempts, k) && start <= attempts[k].recordedAt
      then Counting(attempts, ip, k, start) + {k}
      else Counting(attempts, ip, k, start)
  {
    hide Ends, Wrong;
    if !(attempts[k].ip == ip && Ends(attempts, k)) {
      forall j | j in Counting(attempts, ip, k, start) ensures j in Counting(attempts, ip, k + 1, start) {
      }
    }
  }

  ghost predicate RecordedBy(attempts: seq<Attempt>, k: nat, t: Time)
    requires k <= |attempts|
  {
    forall j :: 0 <= j < k ==> attempts[j].recordedAt <= t
  }

  /** The history of an address counts the same failures and runs the same lockouts as its attempts. */
  ghost predicate Accounts(attempts: seq<Attempt>, ip: string, k: nat, h: History)
    requires k <= |attempts|
  {
    && (forall start: int :: |From(h.pending, start)| == |Counting(attempts, ip, k, start)|)
    && (forall t: Time :: RecordedBy(attempts, k, t) ==> (LockedOut(h, t) <==> FifthWithin(attempts, ip, k, t)))
  }

  /** No clock reading of the log is later than `t`. */
  ghost predicate ReadBy(log: seq<Op>, t: Time) {
    forall i :: 0 <= i < |log| && !log[i].Success? ==> log[i].now <= t
  }

  lemma OrderedSnoc(log: seq<Op>, op: Op)
    requires Ordered(log) && (op.Success? || ReadBy(log, op.now))
    ensures Ordered(log + [op])
  {
  }

  lemma OrderedLogin(s: State, log: seq<Op>, a: Attempt)
    requires Ordered(log) && ReadBy(log, a.checkedAt) && a.checkedAt <= a.recordedAt
    ensures Ordered(log + Login(s, a)) && Ordered(log + [Op.Locked(a.ip, a.checkedAt)])
    ensures ReadBy(log + Login(s, a), a.recordedAt)
  {
    hide Answer;
    var check := [Op.Locked(a.ip, a.checkedAt)];
    OrderedSnoc(log, check[0]);
    assert Login(s, a)[..1] == check;
    if |Login(s, a)| == 1 {
      assert Login(s, a) == check;
    } else {
      OrderedSnoc(log + check, Login(s, a)[1]);
      assert log + Login(s, a) == (log + check) + [Login(s, a)[1]];
    }
  }

  lemma LoginsNext(attempts: seq<Attempt>, k: nat)
    requires k < |attempts|
    ensures var log := Logins(attempts[..k]); Logins(attempts[..k + 1]) == log + Login(Run(log), attempts[k])
  {
    assert attempts[..k + 1][..k] == attempts[..k];
  }

  lemma {:induction false} LoginsOrdered(attempts: seq<Attempt>, k: nat, t: Time)
    requires Steady(attempts) && k <= |attempts| && RecordedBy(attempts, k, t)
    ensures Ordered(Logins(attempts[..k])) && ReadBy(Logins(attempts[..k]), t)
  {
    hide Login;
    if k > 0 {
      var a := attempts[k - 1];
      LoginsNext(attempts, k - 1);
      LoginsOrdered(attempts, k - 1, a.checkedAt);
      OrderedLogin(Run(Logins(attempts[..k - 1])), Logins(attempts[..k - 1]), a);
    }
  }

  /** An attempt of another address leaves the history alone, a refused or unread one too. */
  lemma NaiveOfLogin(log: seq<Op>, a: Attempt, ip: string)
    ensures Naive(log + Login(Run(log), a), ip) ==
      if a.ip != ip || Answer(Run(log), a.ip, a.checkedAt) then Naive(log, ip)
      else match a.outcome
        case WrongCredentials => NaiveStep(Naive(log, ip), Op.Failure(a.ip, a.recordedAt), ip)
        case Granted => History([], [])
        case _ => Naive(log, ip)
  {
    hide Answer, From;
    var ops := Login(Run(log), a);
    assert (log + ops)[..|log|] == log && (log + ops)[|log|] == ops[0];
    NaiveNext(log + ops, ip, |log|);
    assert (log + ops)[..|log + ops|] == log + ops;
    if |ops| == 2 {
      assert (log + ops)[|log| + 1] == ops[1];
      NaiveNext(log + ops, ip, |log| + 1);
    }
  }

  /** The check of an attempt answers what the attempts before it say. */
  lemma RefusedNow(attempts: seq<Attempt>, k: nat)
    requires Steady(attempts) && k < |attempts|
    requires Accounts(attempts, attempts[k].ip, k, Naive(Logins(attempts[..k]), attempts[k].ip))
    ensures Answer(Run(Logins(attempts[..k])), attempts[k].ip, attempts[k].checkedAt) <==> Refused(attempts, k)
  {
    hide Answer, Run, Naive, LockedOut, FifthWithin;
    var log, a := Logins(attempts[..k]), attempts[k];
    LoginsOrdered(attempts, k, a.checkedAt);
    OrderedLogin(Run(log), log, a);
    LockedIffLockedOut(log, a.ip, a.checkedAt);
    assert RecordedBy(attempts, k, a.checkedAt);
  }

  lemma LockedOutNext(h: History, pending: seq<Time>, now: Time, t: Time)
    ensures LockedOut(History(pending, h.lockouts + [now]), t) <==> LockedOut(h, t) || t < now + LOCKOUT
  {
    var more := History(pending, h.lockouts + [now]);
    assert more.lockouts[|h.lockouts|] == now;
    assert forall i :: 0 <= i < |h.lockouts| ==> more.lockouts[i] == h.lockouts[i];
  }

  lemma CountedBefore(attempts: seq<Attempt>, ip: string, k: nat, start: int)
    requires k <= |attempts|
    ensures k !in Counting(attempts, ip, k, start)
  {
  }

  /** A wrong attempt that is not refused. */
  lemma WrongAccounts(attempts: seq<Attempt>, ip: string, k: nat, h: History)
    requires k < |attempts| && attempts[k].ip == ip && Wrong(attempts, k) && Accounts(attempts, ip, k, h)
    ensures Accounts(attempts, ip, k + 1, NaiveStep(h, Op.Failure(ip, attempts[k].recordedAt), ip))
  {
    hide Counting, FifthWithin, LockedOut, From, Refused;
    var now := attempts[k].recordedAt;
    var h' := NaiveStep(h, Op.Failure(ip, now), ip);
    FromSnoc(h.pending, now, now - WINDOW + 1);
    assert Fifth(attempts, k) <==> |From(h.pending + [now], now - WINDOW + 1)| >= THRESHOLD;
    forall start: int ensures |From(h'.pending, start)| == |Counting(attempts, ip, k + 1, start)| {
      FromSnoc(h.pending, now, start);
      FromNone([], start);
      CountingNext(attempts, ip, k, start);
      CountedBefore(attempts, ip, k, start);
    }
    forall t: Time | RecordedBy(attempts, k + 1, t) ensures LockedOut(h', t) <==> FifthWithin(attempts, ip, k + 1, t) {
      FifthWithinNext(attempts, ip, k, t);
      LockedOutNext(h, [], now, t);
      if Fifth(attempts, k) { SameLockouts(History([], h.lockouts + [now]), h', t); } else { SameLockouts(h, h', t); }
    }
  }

  lemma GrantedIsNoFifth(attempts: seq<Attempt>, k: nat)
    requires k < |attempts| && !Wrong(attempts, k)
    ensures !Fifth(attempts, k)
  {
  }

  /** A granted attempt finds every lockout over. */
  lemma GrantedAccounts(attempts: seq<Attempt>, ip: string, k: nat)
    requires Steady(attempts)
    requires k < |attempts| && attempts[k].ip == ip && attempts[k].outcome.Granted? && !Refused(attempts, k)
    ensures Accounts(attempts, ip, k + 1, History([], []))
  {
    hide Counting, Fifth;
    forall start: int ensures |From([], start)| == |Counting(attempts, ip, k + 1, start)| {
      CountingNext(attempts, ip, k, start);
    }
    var h := History([], []);
    forall t: Time | RecordedBy(attempts, k + 1, t) ensures LockedOut(h, t) <==> FifthWithin(attempts, ip, k + 1, t) {
      assert attempts[k].recordedAt <= t;
      FifthWithinNext(attempts, ip, k, t);
      GrantedIsNoFifth(attempts, k);
    }
  }

  /** An attempt that is refused, of another address, or neither wrong nor granted. */
  lemma OtherAccounts(attempts: seq<Attempt>, ip: string, k: nat, h: History)
    requires k < |attempts| && Accounts(attempts, ip, k, h)
    requires attempts[k].ip == ip ==> !Wrong(attempts, k) && !Ends(attempts, k)
    ensures Accounts(attempts, ip, k + 1, h)
  {
    hide Counting, FifthWithin, LockedOut, From, Fifth, Wrong;
    forall start: int ensures |From(h.pending, start)| == |Counting(attempts, ip, k + 1, start)| {
      CountingNext(attempts, ip, k, start);
    }
    forall t: Time | RecordedBy(attempts, k + 1, t) ensures LockedOut(h, t) <==> FifthWithin(attempts, ip, k + 1, t) {
      assert RecordedBy(attempts, k, t);
      FifthWithinNext(attempts, ip, k, t);
    }
  }

  lemma NothingAccounts(attempts: seq<Attempt>, ip: string)
    ensures Accounts(attempts, ip, 0, Naive(Logins(attempts[..0]), ip))
  {
  }

  lemma {:induction false} RunAccounts(attempts: seq<Attempt>, ip: string, k: nat)
    requires Steady(attempts) && k <= |attempts|
    ensures Accounts(attempts, ip, k, Naive(Logins(attempts[..k]), ip))
  {
    hide Accounts, Answer, Login, NaiveStep, Steady;
    if k == 0 {
      NothingAccounts(attempts, ip);
    } else {
      var log, a := Logins(attempts[..k - 1]), attempts[k - 1];
      RunAccounts(attempts, ip, k - 1);
      LoginsNext(attempts, k - 1);
      NaiveOfLogin(log, a, ip);
      if a.ip != ip {
        OtherAccounts(attempts, ip, k - 1, Naive(log, ip));
      } else {
        RefusedNow(attempts, k - 1);
        if Wrong(attempts, k - 1) {
          WrongAccounts(attempts, ip, k - 1, Naive(log, ip));
        } else if a.outcome.Granted? && !Refused(attempts, k - 1) {
          GrantedAccounts(attempts, ip, k - 1);
        } else {
          OtherAccounts(attempts, ip, k - 1, Naive(log, ip));
        }
      }
    }
  }

  /**
   * The limiter as its users see it: of attempts made one after another, one is refused exactly when a
   * fifth wrong attempt of its address came less than fifteen minutes before.
   */
  lemma RefusedIffFifthWithin(attempts: seq<Attempt>, k: nat)
    requires Steady(attempts) && k < |attempts|
    ensures Answer(Run(Logins(attempts[..k])), attempts[k].ip, attempts[k].checkedAt) <==> Refused(attempts, k)
  {
    hide Accounts, Answer, Refused;
    RunAccounts(attempts, attempts[k].ip, k);
    RefusedNow(attempts, k);
  }

  lemma LoginsSnoc(attempts: seq<Attempt>, a: Attempt)
    ensures Logins(attempts + [a]) == Logins(attempts) + Login(Run(Logins(attempts)), a)
  {
    hide Login;
    assert (attempts + [a])[..|attempts|] == attempts;
  }

  lemma RefusedLast(attempts: seq<Attempt>, a: Attempt)
    requires Steady(attempts + [a])
    ensures Answer(Run(Logins(attempts)), a.ip, a.checkedAt) <==> Refused(attempts + [a], |attempts|)
  {
    hide Answer, Refused, Logins;
    assert (attempts + [a])[..|attempts|] == attempts;
    RefusedIffFifthWithin(attempts + [a], |attempts|);
  }

  // ---- The limiter as the object that updates its records in place ----

  /** `pruneFailures`: compacts the retained instants to the front of the same slice. */
  method PruneFailures(failures: array<Time>, count: nat, cutoff: int) returns (n: nat)
    requires count <= failures.Length
    modifies failures
    ensures n <= count && failures[..n] == From(old(failures[..count]), cutoff + 1)
  {
    n := 0;
    ghost var before := failures[..count];
    for i := 0 to count
      invariant n <= i
      invariant failures[..n] == From(before[..i], cutoff + 1)
      invariant forall j :: i <= j < count ==> failures[j] == before[j]
    {
      assert before[..i + 1][..i] == before[..i];
      if failures[i] > cutoff {
        failures[n] := failures[i];
        n := n + 1;
      }
    }
    assert before[..count] == before;
  }

  /** Go's `append` of one instant: in place when there is room, else to a larger copy. */
  method AppendTime(failures: array<Time>, count: nat, t: Time) returns (grown: array<Time>)
    requires count <= failures.Length
    modifies failures
    ensures grown == failures || fresh(grown)
    ensures count < grown.Length && grown[..count] == old(failures[..count]) && grown[count] == t
  {
    if count < failures.Length {
      grown := failures;
    } else {
      grown := new Time[2 * count + 1](_ => 0);
      for i := 0 to count
        invariant grown[..i] == failures[..i] && failures[..] == old(failures[..])
      {
        grown[i] := failures[i];
      }
    }
    assert grown[..count] == failures[..count];
    grown[count] := t;
  }

  class FailureRecord {
    var failures: array<Time>
    var count: nat
    var lockedTill: Time

    ghost predicate Valid() reads this { count <= failures.Length }

    ghost function View(): Record
      requires Valid()
      reads this, failures
    {
      Record(failures[..count], lockedTill)
    }

    constructor ()
      ensures Valid() && fresh(failures) && View() == Record([], 0)
    {
      failures, count, lockedTill := new Time[0], 0, 0;
    }

    lemma Fields()
      requires Valid()
      ensures |View().failures| == count && View().lockedTill == lockedTill
    {
    }

    method PruneBefore(now: Time)
      requires Valid()
      modifies this`count, failures
      ensures Valid() && View() == Record(Prune(old(View()).failures, now), old(View()).lockedTill)
    {
      count := PruneFailures(failures, count, now - WINDOW);
    }

    method Fail(now: Time)
      requires Valid()
      modifies this, failures
      ensures Valid() && View() == Failed(Some(old(View())), now)
      ensures failures == old(failures) || fresh(failures)
    {
      PruneBefore(now);
      failures := AppendTime(failures, count, now);
      count := count + 1;
      assert failures[..count] == failures[..count - 1] + [now];
      if count >= THRESHOLD {
        lockedTill := now + LOCKOUT;
        failures, count := new Time[0], 0;
      }
    }
  }

  lemma RunSnoc(log: seq<Op>, op: Op)
    ensures Run(log + [op]) == Step(Run(log), op)
  {
    hide Step;
    assert (log + [op])[..|log|] == log;
  }

  lemma FailedFresh(now: Time)
    ensures Failed(Some(Record([], 0)), now) == Failed(None, now)
  {
  }

  lemma VisitIs(rec: Record, now: Time)
    ensures Visit(rec, now) ==
      if |Prune(rec.failures, now)| == 0 && rec.lockedTill < now then None
      else Some(Record(Prune(rec.failures, now), rec.lockedTill))
  {
  }

  /** The map in the middle of a sweep: `todo` still holds its old records. */
  ghost function PartlySwept(s: State, todo: set<string>, now: Time): State {
    map ip | ip in s && (ip in todo || Visit(s[ip], now).Some?) ::
      if ip in todo then s[ip] else Visit(s[ip], now).value
  }

  lemma PartlySweptStep(s: State, todo: set<string>, ip: string, now: Time)
    requires ip in todo && todo <= s.Keys
    ensures ip in PartlySwept(s, todo, now) && PartlySwept(s, todo, now)[ip] == s[ip]
    ensures With(PartlySwept(s, todo, now), ip, Visit(s[ip], now)) == PartlySwept(s, todo - {ip}, now)
  {
    hide Visit;
  }

  lemma PartlySweptEnds(s: State, now: Time)
    ensures PartlySwept(s, s.Keys, now) == s && PartlySwept(s, {}, now) == Swept(s, now)
  {
    hide Visit;
  }

  class LoginRateLimiter {
    var entries: map<string, FailureRecord>

    ghost function Arrays(): set<array<Time>>
      reads this, entries.Values
    {
      set r | r in entries.Values :: r.failures
    }

    /** No two addresses share a record or a slice. */
    ghost predicate Separate()
      reads this, entries.Values
    {
      && (forall ip :: ip in entries ==> entries[ip].Valid())
      && (forall a, b :: a in entries && b in entries && a != b ==>
            entries[a] != entries[b] && entries[a].failures != entries[b].failures)
    }

    ghost function View(): State
      requires Separate()
      reads this, entries.Values, Arrays()
    {
      map ip | ip in entries :: entries[ip].View()
    }

    /** The limiter is in the state that the operations of `log` lead to. */
    ghost predicate Follows(log: seq<Op>)
      reads this, entries.Values, Arrays()
    {
      Separate() && View() == Run(log)
    }

    constructor ()
      ensures Follows([])
    {
      entries := map[];
    }

    /** Entries may be gone, but none is new and every slice is where it was. */
    twostate predicate OnlyRemoves()
      reads this, entries.Values
    {
      forall ip :: ip in entries ==>
        ip in old(entries) && entries[ip] == old(entries)[ip] && entries[ip].failures == old(entries[ip].failures)
    }

    /** Every record and slice was there before or is new. */
    twostate predicate OnlyAdds()
      reads this, entries.Values
    {
      forall ip :: ip in entries ==>
        if ip in old(entries) then
          entries[ip] == old(entries)[ip]
          && (entries[ip].failures == old(entries[ip].failures) || fresh(entries[ip].failures))
        else fresh(entries[ip]) && fresh(entries[ip].failures)
    }

    lemma Entries()
      requires Separate()
      ensures View().Keys == entries.Keys
      ensures forall ip :: ip in entries ==> entries[ip].Valid() && View()[ip] == entries[ip].View()
    {
    }

    lemma ViewIs(s: State)
      requires Separate() && entries.Keys == s.Keys
      requires forall ip :: ip in entries ==> entries[ip].View() == s[ip]
      ensures View() == s
    {
    }

    method PruneEntry(ip: string, now: Time)
      requires Separate() && ip in entries
      modifies entries[ip], entries[ip].failures
      ensures Separate() && entries[ip].failures == old(entries[ip].failures)
      ensures View() == old(View())[ip := Record(Prune(old(View())[ip].failures, now), old(View())[ip].lockedTill)]
    {
      hide Prune, Visit, From, LoginRateLimiter.View, FailureRecord.View;
      ghost var before := View();
      Entries();
      var rec := entries[ip];
      rec.PruneBefore(now);
      forall i | i in entries && i != ip ensures entries[i].View() == before[i] {
        assert entries[i] != rec && entries[i].failures != rec.failures;
      }
      ViewIs(before[ip := entries[ip].View()]);
    }

    method Remove(ip: string)
      requires Separate()
      modifies this`entries
      ensures Separate() && entries == old(entries) - {ip} && View() == old(View()) - {ip}
    {
      hide LoginRateLimiter.View, FailureRecord.View;
      ghost var before := View();
      Entries();
      entries := entries - {ip};
      ViewIs(before - {ip});
    }

    /** Prunes one record in place and deletes it when it is empty and no longer locked. */
    method VisitEntry(ip: string, now: Time)
      requires Separate() && ip in entries
      modifies this`entries, entries[ip], entries[ip].failures
      ensures Separate() && OnlyRemoves()
      ensures View() == With(old(View()), ip, Visit(old(View())[ip], now))
    {
      hide Prune, Visit, LoginRateLimiter.View, FailureRecord.View, Separate;
      ghost var before := View();
      Entries();
      PruneEntry(ip, now);
      VisitIs(before[ip], now);
      Entries();
      var rec := entries[ip];
      rec.Fields();
      if rec.count == 0 && rec.lockedTill < now {
        Remove(ip);
        UpdateThenRemove(before, ip, Record(Prune(before[ip].failures, now), before[ip].lockedTill));
      }
    }

    /** `sweepStaleLocked`: visits every record. */
    method SweepStale(now: Time)
      requires Separate()
      modifies this`entries, entries.Values, Arrays()
      ensures Separate() && OnlyRemoves()
      ensures View() == Swept(old(View()), now)
    {
      hide Visit, Separate, LoginRateLimiter.View, FailureRecord.View, PartlySwept, Swept;
      ghost var before := View();
      var todo := entries.Keys;
      Entries();
      PartlySweptEnds(before, now);
      while todo != {}
        invariant Separate()
        invariant forall i :: i in entries ==>
          i in old(entries) && entries[i] == old(entries)[i] && entries[i].failures == old(entries[i].failures)
        invariant todo <= before.Keys && View() == PartlySwept(before, todo, now)
        decreases |todo|
      {
        var ip :| ip in todo;
        PartlySweptStep(before, todo, ip, now);
        Entries();
        VisitEntry(ip, now);
        todo := todo - {ip};
      }
    }

    /** `locked`: after any run, the answer is the specification's. */
    method Locked(ip: string, now: Time, ghost log: seq<Op>) returns (locked: bool)
      requires Follows(log)
      modifies this, entries.Values, Arrays()
      ensures Follows(log + [Op.Locked(ip, now)]) && OnlyRemoves()
      ensures locked <==> Answer(Run(log), ip, now)
      ensures Ordered(log + [Op.Locked(ip, now)]) ==> (locked <==> LockedOut(Naive(log, ip), now))
    {
      hide Visit, Swept, Ordered, LockedOut, Run, LoginRateLimiter.View, Separate;
      RunSnoc(log, Op.Locked(ip, now));
      if Ordered(log + [Op.Locked(ip, now)]) { LockedIffLockedOut(log, ip, now); }
      SweepStale(now);
      Entries();
      if ip !in entries {
        return false;
      }
      if now < entries[ip].lockedTill {
        return true;
      }
      VisitEntry(ip, now);
      return false;
    }

    /** Creates the record of `ip` when there is none. */
    method Ensure(ip: string)
      requires Separate()
      modifies this
      ensures Separate() && ip in entries
      ensures if ip in old(entries) then entries == old(entries)
              else entries == old(entries)[ip := entries[ip]] && fresh(entries[ip]) && fresh(entries[ip].failures)
      ensures View() == old(View())[ip := match At(old(View()), ip) case None => Record([], 0) case Some(r) => r]
    {
      ghost var before := View();
      if ip !in entries {
        var created := new FailureRecord();
        entries := entries[ip := created];
        ViewIs(before[ip := Record([], 0)]);
      }
    }

    method FailEntry(ip: string, now: Time)
      requires Separate() && ip in entries
      modifies entries[ip], entries[ip].failures
      ensures Separate()
      ensures entries[ip].failures == old(entries[ip].failures) || fresh(entries[ip].failures)
      ensures View() == old(View())[ip := Failed(Some(old(View())[ip]), now)]
    {
      hide Failed, LoginRateLimiter.View, FailureRecord.View;
      ghost var before := View();
      Entries();
      var rec := entries[ip];
      rec.Fail(now);
      forall i | i in entries && i != ip ensures entries[i].View() == before[i] {
        assert entries[i] != rec && entries[i].failures != old(rec.failures);
      }
      ViewIs(before[ip := rec.View()]);
    }

    /** `recordFailure`. */
    method RecordFailure(ip: string, now: Time, ghost log: seq<Op>)
      requires Follows(log)
      modifies this, entries.Values, Arrays()
      ensures Follows(log + [Op.Failure(ip, now)])
      ensures OnlyAdds()
    {
      hide Failed, LoginRateLimiter.View, Separate, Run;
      RunSnoc(log, Op.Failure(ip, now));
      Ensure(ip);
      FailedFresh(now);
      FailEntry(ip, now);
    }

    /** `recordSuccess`. */
    method RecordSuccess(ip: string, ghost log: seq<Op>)
      requires Follows(log)
      modifies this
      ensures Follows(log + [Op.Success(ip)]) && OnlyRemoves()
    {
      RunSnoc(log, Op.Success(ip));
      Remove(ip);
    }

    /**
     * The limiter's part in `handleLogin`, for an attempt that no other one interrupts. A passed check is
     * followed by a failure when the credentials are wrong, by a success when the login is granted, and
     * by nothing otherwise.
     */
    method HandleLogin(a: Attempt, ghost log: seq<Op>, ghost attempts: seq<Attempt>) returns (refused: bool)
      requires Follows(log)
      modifies this, entries.Values, Arrays()
      ensures refused <==> Answer(Run(log), a.ip, a.checkedAt)
      ensures !refused && a.outcome.WrongCredentials? ==>
        Follows(log + [Op.Locked(a.ip, a.checkedAt), Op.Failure(a.ip, a.recordedAt)])
      ensures !refused && a.outcome.Granted? ==> Follows(log + [Op.Locked(a.ip, a.checkedAt), Op.Success(a.ip)])
      ensures refused || a.outcome.Unreadable? || a.outcome.Unserved? ==> Follows(log + [Op.Locked(a.ip, a.checkedAt)])
      ensures log == Logins(attempts) ==> Follows(Logins(attempts + [a]))
      ensures log == Logins(attempts) && Steady(attempts + [a]) ==> (refused <==> Refused(attempts + [a], |attempts|))
    {
      hide Run, Answer, Follows, Ordered, LockedOut, Steady, Refused, Logins;
      ghost var check := [Op.Locked(a.ip, a.checkedAt)];
      LoginsSnoc(attempts, a);
      if Steady(attempts + [a]) { RefusedLast(attempts, a); }
      refused := Locked(a.ip, a.checkedAt, log);
      if refused {
        assert check + [] == check;
        return;
      }
      if a.outcome.WrongCredentials? {
        RecordFailure(a.ip, a.recordedAt, log + check);
        ghost var record := Op.Failure(a.ip, a.recordedAt);
        assert (log + check) + [record] == log + (check + [record]) && check + [record] == [check[0], record];
      } else if a.outcome.Granted? {
        RecordSuccess(a.ip, log + check);
        ghost var record := Op.Success(a.ip);
        assert (log + check) + [record] == log + (check + [record]) && check + [record] == [check[0], record];
      } else {
        assert check + [] == check;
      }
    }
  }
}
