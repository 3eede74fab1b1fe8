/**
 * internal/parser/parser.go: the bounded walk over 802.11 information elements and its two consumers.
 * An element is an identifier, a length and that many bytes (section 9.4.2.1 of IEEE Std 802.11-2020).
 */
module Elements {
  import opened Basics
  import opened Mac

  const MAX_IES: nat := 256

  datatype RawElement = Element(id: byte, info: seq<byte>)

  type Element = e: RawElement | |e.info| <= 255 witness Element(0, [])

  function Encode(e: Element): seq<byte> { [e.id, |e.info| as byte] + e.info }

  function EncodeAll(es: seq<Element>): seq<byte> {
    if es == [] then [] else Encode(es[0]) + EncodeAll(es[1..])
  }

  /** Nothing more can be read: no header is left, or the record it announces is cut short. */
  predicate Truncated(data: seq<byte>) { |data| < 2 || |data| < 2 + data[1] as int }

  /** The elements that at most `n` iterations of the walk visit. */
  function Visited(data: seq<byte>, n: nat): seq<Element> {
    if n == 0 || Truncated(data) then []
    else
      var length := data[1] as int;
      [Element(data[0], data[2..2 + length])] + Visited(data[2 + length..], n - 1)
  }

  /** What those iterations leave unread. */
  function Unread(data: seq<byte>, n: nat): seq<byte> {
    if n == 0 || Truncated(data) then data else Unread(data[2 + data[1] as int..], n - 1)
  }

  // ---- The walk inverts the encoder ----

  /** One encoded element in front of anything is what the walk reads first. */
  lemma VisitsFirst(e: Element, tail: seq<byte>, n: pos)
    ensures Visited(Encode(e) + tail, n) == [e] + Visited(tail, n - 1)
    ensures Unread(Encode(e) + tail, n) == Unread(tail, n - 1)
  {
    var data := Encode(e) + tail;
    assert data[0] == e.id && data[1] as int == |e.info|;
    assert data[2..2 + |e.info|] == e.info && data[2 + |e.info|..] == tail;
  }

  lemma EncodeCons(e: Element, es: seq<Element>)
    ensures EncodeAll([e] + es) == Encode(e) + EncodeAll(es)
  {
    hide Encode;
    assert ([e] + es)[1..] == es;
  }

  /** Nothing unreadable is visited, and nothing is visited in no iteration. */
  lemma VisitsNothing(data: seq<byte>, n: nat)
    requires n == 0 || Truncated(data)
    ensures Visited(data, n) == [] && Unread(data, n) == data
  {
  }

  lemma RoundTripFirst(e: Element, es: seq<Element>, tail: seq<byte>, n: pos)
    ensures Visited(EncodeAll([e] + es) + tail, n) == [e] + Visited(EncodeAll(es) + tail, n - 1)
    ensures Unread(EncodeAll([e] + es) + tail, n) == Unread(EncodeAll(es) + tail, n - 1)
  {
    hide Encode, EncodeAll, Visited, Unread;
    EncodeCons(e, es);
    assert (Encode(e) + EncodeAll(es)) + tail == Encode(e) + (EncodeAll(es) + tail);
    VisitsFirst(e, EncodeAll(es) + tail, n);
  }

  /** Decoding what was encoded, up to the cap on elements, whatever unreadable bytes follow. */
  lemma {:induction false} RoundTrip(es: seq<Element>, tail: seq<byte>, n: nat)
    requires |es| < n ==> Truncated(tail)
    ensures Visited(EncodeAll(es) + tail, n) == es[..Min(|es|, n)]
    ensures |es| <= n ==> Unread(EncodeAll(es) + tail, n) == tail
  {
    hide Encode, Visited, Unread, Truncated;
    if es == [] {
      assert EncodeAll(es) + tail == tail;
      VisitsNothing(tail, n);
    } else if n == 0 {
      VisitsNothing(EncodeAll(es) + tail, 0);
    } else {
      var rest := es[1..];
      assert es == [es[0]] + rest;
      RoundTripFirst(es[0], rest, tail, n);
      RoundTrip(rest, tail, n - 1);
      assert [es[0]] + rest[..Min(|rest|, n - 1)] == es[..Min(|es|, n)];
    }
  }

  /** What the walk reads first is the encoding of an element. */
  lemma ReadsFirst(data: seq<byte>, n: pos) returns (e: Element, rest: seq<byte>)
    requires !Truncated(data)
    ensures data == Encode(e) + rest && |rest| < |data|
    ensures Visited(data, n) == [e] + Visited(rest, n - 1) && Unread(data, n) == Unread(rest, n - 1)
  {
    var length := data[1] as int;
    e, rest := Element(data[0], data[2..2 + length]), data[2 + length..];
  }

  /** For arbitrary bytes: the visited elements and the unread rest are the input, read as far as possible. */
  lemma {:induction false} Reencodes(data: seq<byte>, n: nat)
    ensures EncodeAll(Visited(data, n)) + Unread(data, n) == data
    ensures |Visited(data, n)| <= n
    ensures Truncated(Unread(data, n)) || |Visited(data, n)| == n
    decreases n
  {
    hide Encode, Visited, Unread, Truncated;
    if n == 0 || Truncated(data) {
      VisitsNothing(data, n);
      assert EncodeAll([]) + data == data;
    } else {
      var e, rest := ReadsFirst(data, n);
      Reencodes(rest, n - 1);
      var es := Visited(rest, n - 1);
      EncodeCons(e, es);
      assert (Encode(e) + EncodeAll(es)) + Unread(rest, n - 1) == Encode(e) + (EncodeAll(es) + Unread(rest, n - 1));
    }
  }

  /** The walk is characterised: these elements and this rest are the only ones of that kind. */
  lemma WalkIffEncoding(data: seq<byte>, n: nat, es: seq<Element>, tail: seq<byte>)
    ensures Visited(data, n) == es && Unread(data, n) == tail
       <==> data == EncodeAll(es) + tail && |es| <= n && (Truncated(tail) || |es| == n)
  {
    Reencodes(data, n);
    if data == EncodeAll(es) + tail && |es| <= n && (Truncated(tail) || |es| == n) {
      RoundTrip(es, tail, n);
    }
  }

  /** Where the `k`-th element starts: behind the header and the bytes of each one before it. */
  ghost function Start(data: seq<byte>, k: nat): nat {
    if k == 0 then 0
    else
      var o := Start(data, k - 1);
      if o + 1 < |data| then o + 2 + data[o + 1] as int else o
  }

  lemma StartsAtZero(data: seq<byte>)
    ensures Start(data, 0) == 0
  {
  }

  lemma {:induction false} StartBehindFirst(data: seq<byte>, k: nat)
    requires !Truncated(data)
    ensures Start(data, k + 1) == 2 + data[1] as int + Start(data[2 + data[1] as int..], k)
  {
    if k > 0 {
      StartBehindFirst(data, k - 1);
    } else {
      StartsAtZero(data);
    }
  }

  ghost predicate ElementAt(data: seq<byte>, o: nat, e: Element) {
    && o + 2 <= |data| && o + 2 + data[o + 1] as int <= |data|
    && e == Element(data[o], data[o + 2..o + 2 + data[o + 1] as int])
  }

  lemma ElementBehind(data: seq<byte>, a: nat, o: nat, e: Element)
    requires a <= |data| && ElementAt(data[a..], o, e)
    ensures ElementAt(data, a + o, e)
  {
    var length := data[a..][o + 1] as int;
    assert data[a..][o + 2..o + 2 + length] == data[a + o + 2..a + o + 2 + length];
  }

  lemma VisitedBehindFirst(data: seq<byte>, n: nat, k: nat)
    requires k < |Visited(data, n)|
    ensures n > 0 && !Truncated(data)
    ensures k == 0 ==> ElementAt(data, 0, Visited(data, n)[0])
    ensures var rest := data[2 + data[1] as int..];
      k > 0 ==> k - 1 < |Visited(rest, n - 1)| && Visited(data, n)[k] == Visited(rest, n - 1)[k - 1]
  {
  }

  /** Read off the bytes: each visited element is the identifier, and the bytes its length announces, at its place. */
  lemma {:induction false} VisitedAt(data: seq<byte>, n: nat, k: nat)
    requires k < |Visited(data, n)|
    ensures var o := Start(data, k);
      && o + 2 <= |data| && o + 2 + data[o + 1] as int <= |data|
      && Visited(data, n)[k].id == data[o] && Visited(data, n)[k].info == data[o + 2..o + 2 + data[o + 1] as int]
    decreases k
  {
    hide Visited, Start;
    VisitedBehindFirst(data, n, k);
    StartsAtZero(data);
    if k > 0 {
      var a := 2 + data[1] as int;
      VisitedAt(data[a..], n - 1, k - 1);
      StartBehindFirst(data, k - 1);
      ElementBehind(data, a, Start(data[a..], k - 1), Visited(data, n)[k]);
    }
  }

  // ---- Consumers: a callback fed the visited elements until it says stop ----

  type Callback<!S> = (S, byte, seq<byte>) -> (S, bool)

  function Feed<S>(es: seq<Element>, s: S, visit: Callback<S>): S {
    if es == [] then s
    else
      var (next, more) := visit(s, es[0].id, es[0].info);
      if more then Feed(es[1..], next, visit) else next
  }

  /** `iterateIEs`, with what the callback captures as an explicit state. */
  method IterateIEs<S>(data: seq<byte>, start: S, visit: Callback<S>) returns (s: S)
    ensures s == Feed(Visited(data, 256), start, visit)
  {
    s := start;
    var rest, i := data, 0;
    while |rest| >= 2 && i < MAX_IES
      invariant i <= MAX_IES
      invariant Feed(Visited(rest, MAX_IES - i), s, visit) == Feed(Visited(data, MAX_IES), start, visit)
    {
      var id, length := rest[0], rest[1] as int;
      if |rest| < 2 + length {
        return;
      }
      ghost var es := Visited(rest[2 + length..], MAX_IES - i - 1);
      assert Visited(rest, MAX_IES - i) == [Element(id, rest[2..2 + length])] + es;
      assert ([Element(id, rest[2..2 + length])] + es)[1..] == es;
      var (next, more) := visit(s, id, rest[2..2 + length]);
      s := next;
      if !more {
        return;
      }
      rest, i := rest[2 + length..], i + 1;
    }
  }

  /** The first element with this identifier. */
  ghost function First(es: seq<Element>, id: byte): Option<seq<byte>> {
    if es == [] then None else if es[0].id == id then Some(es[0].info) else First(es[1..], id)
  }

  /** The last element with this identifier. */
  ghost function Last(es: seq<Element>, id: byte): Option<seq<byte>> {
    if es == [] then None
    else if Last(es[1..], id).Some? then Last(es[1..], id)
    else if es[0].id == id then Some(es[0].info) else None
  }

  ghost function Occurrences(es: seq<Element>, id: byte): nat {
    if es == [] then 0 else Occurrences(es[1..], id) + (if es[0].id == id then 1 else 0)
  }

  lemma {:induction false} FirstIff(es: seq<Element>, id: byte, v: seq<byte>)
    ensures First(es, id) == Some(v) <==>
      exists i :: 0 <= i < |es| && es[i].id == id && es[i].info == v && forall j :: 0 <= j < i ==> es[j].id != id
    ensures First(es, id) == None <==> forall i :: 0 <= i < |es| ==> es[i].id != id
  {
    if es != [] {
      var rest := es[1..];
      FirstIff(rest, id, v);
      assert forall i :: 0 < i < |es| ==> es[i] == rest[i - 1];
      if es[0].id != id && First(rest, id) == Some(v) {
        var i :|
          0 <= i < |rest| && rest[i].id == id && rest[i].info == v && forall j :: 0 <= j < i ==> rest[j].id != id;
        assert es[i + 1].id == id && es[i + 1].info == v;
      }
    }
  }

  lemma {:induction false} LastIff(es: seq<Element>, id: byte, v: seq<byte>)
    ensures Last(es, id) == Some(v) <==>
      exists i :: 0 <= i < |es| && es[i].id == id && es[i].info == v && forall j :: i < j < |es| ==> es[j].id != id
    ensures Last(es, id) == None <==> forall i :: 0 <= i < |es| ==> es[i].id != id
  {
    if es != [] {
      var rest := es[1..];
      LastIff(rest, id, v);
      assert forall i :: 0 < i < |es| ==> es[i] == rest[i - 1];
      if Last(rest, id) == Some(v) {
        var i :|
          0 <= i < |rest| && rest[i].id == id && rest[i].info == v && forall j :: i < j < |rest| ==> rest[j].id != id;
        assert es[i + 1].id == id && es[i + 1].info == v;
      }
    }
  }

  function TakeSSID(found: Option<seq<byte>>, id: byte, info: seq<byte>): (Option<seq<byte>>, bool) {
    if id == 0 then (Some(info), false) else (found, true)
  }

  lemma {:induction false} FeedSSID(es: seq<Element>)
    ensures Feed(es, None, TakeSSID) == First(es, 0)
  {
    if es != [] {
      FeedSSID(es[1..]);
    }
  }

  /** `parseIEForSSID`: the first visited element 0, which may be empty. */
  method ParseIEForSSID(data: seq<byte>) returns (ssid: Option<seq<byte>>)
    ensures ssid == First(Visited(data, 256), 0)
  {
    ssid := IterateIEs(data, None, TakeSSID);
    FeedSSID(Visited(data, MAX_IES));
  }

  type InfoElements = map<byte, seq<byte>>

  function StoreElement(m: InfoElements, id: byte, info: seq<byte>): (InfoElements, bool) {
    if |m| >= MAX_IES then (m, false) else (m[id := info], true)
  }

  /** The callback's own cap never fires while the map and the elements to come fit under it. */
  lemma {:induction false} FeedStore(es: seq<Element>, m: InfoElements, id: byte)
    requires |m| + |es| <= MAX_IES
    ensures var r := Feed(es, m, StoreElement);
      && |r| <= |m| + |es|
      && (id in r <==> id in m || Last(es, id).Some?)
      && (id in r ==> r[id] == if Last(es, id).Some? then Last(es, id).value else m[id])
  {
    if es != [] {
      FeedStore(es[1..], m[es[0].id := es[0].info], id);
    }
  }

  /** `parseIEsRaw` into an empty map: each identifier's last visited occurrence, none left out. */
  method ParseIEsRaw(data: seq<byte>) returns (m: InfoElements)
    ensures forall id :: id in m <==> Last(Visited(data, 256), id).Some?
    ensures forall id :: id in m ==> m[id] == Last(Visited(data, 256), id).value
  {
    m := IterateIEs(data, map[], StoreElement);
    Reencodes(data, MAX_IES);
    forall id ensures id in m <==> Last(Visited(data, MAX_IES), id).Some?
              ensures id in m ==> m[id] == Last(Visited(data, MAX_IES), id).value {
      FeedStore(Visited(data, MAX_IES), map[], id);
    }
  }

  /** Both consumers find an identifier, or neither does; they agree on its value when it occurs once. */
  lemma {:induction false} ConsumersAgree(es: seq<Element>, id: byte)
    ensures First(es, id).Some? <==> Last(es, id).Some?
    ensures First(es, id).Some? <==> Occurrences(es, id) > 0
    ensures Occurrences(es, id) <= 1 ==> First(es, id) == Last(es, id)
  {
    if es != [] {
      ConsumersAgree(es[1..], id);
    }
  }

  /** With a repeated SSID element one consumer keeps the first value and the other the last. */
  lemma RepeatedSSID(first: seq<byte>, last: seq<byte>)
    requires |first| <= 255 && |last| <= 255
    ensures var es := Visited(EncodeAll([Element(0, first), Element(0, last)]), MAX_IES);
      First(es, 0) == Some(first) && Last(es, 0) == Some(last)
  {
    var es: seq<Element> := [Element(0, first), Element(0, last)];
    RoundTrip(es, [], MAX_IES);
    assert EncodeAll(es) + [] == EncodeAll(es);
    assert es[1..] == [Element(0, last)] && es[1..][1..] == [];
    assert Last(es[1..], 0) == Some(last);
  }
}
