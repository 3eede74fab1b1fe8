/**
 * Vocabulary shared by the component models: optional values, instants, and the
 * one filter every sliding window of the daemon is measured against.
 */
module Basics {
  datatype Option<+T> = None | Some(value: T)

  /** An instant, in nanoseconds since Go's zero `time.Time`; the zero value is 0. */
  type Time = nat

  type pos = n: nat | n > 0 witness 1

  const SECOND: nat := 1_000_000_000
  const MINUTE: nat := 60 * SECOND

  function Min(a: int, b: int): int { if a < b then a else b }

  function Max(a: int, b: int): int { if a < b then b else a }

  ghost predicate Sorted(ts: seq<Time>) {
    forall i, j :: 0 <= i < j < |ts| ==> ts[i] <= ts[j]
  }

  ghost predicate UpTo(ts: seq<Time>, hi: int) {
    forall i :: 0 <= i < |ts| ==> ts[i] <= hi
  }

  lemma SortedSnoc(ts: seq<Time>, t: Time)
    requires Sorted(ts) && UpTo(ts, t)
    ensures Sorted(ts + [t]) && UpTo(ts + [t], t)
  {
  }

  /** The instants at or after `lo`, in their order: what a window would hold had nothing ever been dropped. */
  function From(ts: seq<Time>, lo: int): seq<Time> {
    if ts == [] then []
    else
      var rest := From(ts[..|ts| - 1], lo);
      if lo <= ts[|ts| - 1] then rest + [ts[|ts| - 1]] else rest
  }

  lemma FromSnoc(ts: seq<Time>, t: Time, lo: int)
    ensures From(ts + [t], lo) == if lo <= t then From(ts, lo) + [t] else From(ts, lo)
  {
    assert (ts + [t])[..|ts|] == ts;
  }

  lemma {:induction false} FromUpTo(ts: seq<Time>, lo: int, hi: int)
    requires UpTo(ts, hi)
    ensures UpTo(From(ts, lo), hi) && |From(ts, lo)| <= |ts|
    ensures forall i :: 0 <= i < |From(ts, lo)| ==> lo <= From(ts, lo)[i]
  {
    if ts != [] {
      FromUpTo(ts[..|ts| - 1], lo, hi);
    }
  }

  lemma {:induction false} FromSorted(ts: seq<Time>, lo: int)
    requires Sorted(ts)
    ensures Sorted(From(ts, lo))
  {
    if ts != [] {
      FromSorted(ts[..|ts| - 1], lo);
      FromUpTo(ts[..|ts| - 1], lo, ts[|ts| - 1]);
    }
  }

  /** Filtering early loses nothing that a later, stricter filter would keep. */
  lemma {:induction false} FromFrom(ts: seq<Time>, lo: int, hi: int)
    requires lo <= hi
    ensures From(From(ts, lo), hi) == From(ts, hi)
  {
    if ts != [] {
      var init, t := ts[..|ts| - 1], ts[|ts| - 1];
      FromFrom(init, lo, hi);
      FromSnoc(From(init, lo), t, hi);
    }
  }

  lemma {:induction false} FromAll(ts: seq<Time>, lo: int)
    requires forall i :: 0 <= i < |ts| ==> lo <= ts[i]
    ensures From(ts, lo) == ts
  {
    if ts != [] {
      FromAll(ts[..|ts| - 1], lo);
      assert ts == ts[..|ts| - 1] + [ts[|ts| - 1]];
    }
  }

  lemma {:induction false} FromNone(ts: seq<Time>, lo: int)
    requires forall i :: 0 <= i < |ts| ==> ts[i] < lo
    ensures From(ts, lo) == []
  {
    if ts != [] {
      FromNone(ts[..|ts| - 1], lo);
    }
  }

  lemma {:induction false} FromAppend(ts: seq<Time>, us: seq<Time>, lo: int)
    ensures From(ts + us, lo) == From(ts, lo) + From(us, lo)
  {
    if us == [] {
      assert ts + us == ts;
    } else {
      var init, u := us[..|us| - 1], us[|us| - 1];
      assert ts + us == (ts + init) + [u];
      FromSnoc(ts + init, u, lo);
      FromAppend(ts, init, lo);
    }
  }

  ghost function Pick<T>(s: set<T>): (x: T)
    requires s != {}
    ensures x in s
  {
    var x :| x in s;
    x
  }

  /** The first instant that is not the zero time; the zero time when there is none. */
  function FirstNonZero(ts: seq<Time>): (t: Time)
    ensures t == 0 <==> forall k :: 0 <= k < |ts| ==> ts[k] == 0
    ensures t != 0 ==> exists k :: 0 <= k < |ts| && ts[k] == t && forall j :: 0 <= j < k ==> ts[j] == 0
  {
    if ts == [] then 0
    else if ts[0] != 0 then ts[0]
    else
      var t := FirstNonZero(ts[1..]);
      assert forall k :: 0 < k < |ts| ==> ts[k] == ts[1..][k - 1];
      assert t != 0 ==> exists k :: 0 <= k < |ts| && ts[k] == t && forall j :: 0 <= j < k ==> ts[j] == 0 by {
        if t != 0 {
          var k :| 0 <= k < |ts| - 1 && ts[1..][k] == t && forall j :: 0 <= j < k ==> ts[1..][j] == 0;
          assert ts[k + 1] == t && forall j :: 0 < j < k + 1 ==> ts[j] == ts[1..][j - 1];
        }
      }
      t
  }

  lemma {:induction false} FirstNonZeroSnoc(ts: seq<Time>, t: Time)
    ensures FirstNonZero(ts + [t]) == if FirstNonZero(ts) != 0 then FirstNonZero(ts) else t
  {
    if ts != [] {
      assert (ts + [t])[1..] == ts[1..] + [t];
      FirstNonZeroSnoc(ts[1..], t);
    }
  }

  lemma UpdateThenRemove<K, V>(m: map<K, V>, k: K, v: V)
    ensures m[k := v] - {k} == m - {k}
  {
  }

  lemma UpdateTwice<K, V>(m: map<K, V>, k: K, a: V, b: V)
    ensures m[k := a][k := b] == m[k := b]
  {
  }

  lemma SubsetSize<T>(a: set<T>, b: set<T>)
    requires a <= b
    ensures |a| <= |b|
  {
    assert b == a + (b - a);
  }

  /** Deletes the entries last seen more than `maxAge` ago. */
  method Younger(m: map<string, Time>, now: Time, maxAge: int) returns (kept: map<string, Time>)
    ensures kept == map b | b in m && now - m[b] <= maxAge :: m[b]
  {
    kept := m;
    var todo := m.Keys;
    while todo != {}
      invariant todo <= m.Keys
      invariant kept == map b | b in m && (b in todo || now - m[b] <= maxAge) :: m[b]
      decreases |todo|
    {
      var b :| b in todo;
      todo := todo - {b};
      if now - kept[b] > maxAge {
        kept := kept - {b};
      }
    }
  }
}
