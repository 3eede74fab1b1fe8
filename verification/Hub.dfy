/**
 * internal/api/sse.go: the fan-out hub for server-sent events, as atomic actions of concurrent parties.
 *
 * Channels follow Go's rules: sending on or closing a closed channel panics, a non-blocking send to a
 * full buffer is dropped. `Step` makes a panic visible, and the theorems range over every interleaving.
 */
module Hub {
  import opened Basics

  const QUEUE_SIZE: nat := 256
  const SUBSCRIBER_BUFFER: nat := 64

  datatype Message = Message(kind: string, data: string)

  datatype Chan = Chan(buffer: seq<Message>, closed: bool)

  /** `subs` are the registered ids; `chans` holds the channel of every subscriber there ever was. */
  datatype State = State(subs: set<nat>, chans: map<nat, Chan>, nextID: nat, queue: seq<Message>, running: bool)

  datatype Action =
    | Publish(msg: Message)
    | Subscribe
    | Unsubscribe(id: nat)
    | Start
    | Broadcast
    | Receive(id: nat)
    | Shutdown

  datatype Outcome = Continue(state: State) | Panic

  // ---- The protocol ----

  /** A non-blocking send to an open channel. */
  function Offer(c: Chan, msg: Message): Chan {
    if |c.buffer| < SUBSCRIBER_BUFFER then c.(buffer := c.buffer + [msg]) else c
  }

  function Offered(chans: map<nat, Chan>, to: set<nat>, msg: Message): map<nat, Chan> {
    map id | id in chans :: if id in to then Offer(chans[id], msg) else chans[id]
  }

  function Closed(chans: map<nat, Chan>, which: set<nat>): map<nat, Chan> {
    map id | id in chans :: if id in which then chans[id].(closed := true) else chans[id]
  }

  /** Some registered channel is closed already: sending to it, or closing it again, panics. */
  predicate AnyClosed(s: State) {
    exists id :: id in s.subs && id in s.chans && s.chans[id].closed
  }

  function Step(s: State, a: Action): Outcome {
    match a
    case Publish(msg) =>
      Continue(if |s.queue| < QUEUE_SIZE then s.(queue := s.queue + [msg]) else s)
    case Subscribe =>
      var id := s.nextID + 1;
      Continue(s.(nextID := id, subs := s.subs + {id}, chans := s.chans[id := Chan([], false)]))
    case Unsubscribe(id) => Continue(s.(subs := s.subs - {id}))
    case Start => Continue(s.(running := true))
    case Broadcast =>
      if !s.running || s.queue == [] then Continue(s)
      else if AnyClosed(s) then Panic
      else Continue(s.(chans := Offered(s.chans, s.subs, s.queue[0]), queue := s.queue[1..]))
    case Receive(id) =>
      if id in s.chans && s.chans[id].buffer != []
      then Continue(s.(chans := s.chans[id := s.chans[id].(buffer := s.chans[id].buffer[1..])]))
      else Continue(s)
    case Shutdown =>
      if !s.running then Continue(s)
      else if AnyClosed(s) then Panic
      else Continue(s.(chans := Closed(s.chans, s.subs), subs := {}, running := false))
  }

  const INIT: State := State({}, map[], 0, [], false)

  function Run(actions: seq<Action>): Outcome {
    if actions == [] then Continue(INIT)
    else
      match Run(actions[..|actions| - 1])
      case Panic => Panic
      case Continue(s) => Step(s, actions[|actions| - 1])
  }

  // ---- Safety ----

  ghost predicate Inv(s: State) {
    && (forall id :: id in s.subs ==> id in s.chans && !s.chans[id].closed)
    && (forall id :: id in s.chans ==> 1 <= id <= s.nextID && |s.chans[id].buffer| <= SUBSCRIBER_BUFFER)
    && |s.queue| <= QUEUE_SIZE
  }

  lemma StepSafe(s: State, a: Action)
    requires Inv(s)
    ensures Step(s, a).Continue? && Inv(Step(s, a).state)
  {
  }

  /**
   * Over every interleaving no message is sent to a closed channel and no channel is closed twice,
   * and every buffer stays within its bound.
   */
  lemma {:induction false} NeverPanics(actions: seq<Action>)
    ensures Run(actions).Continue? && Inv(Run(actions).state)
  {
    if actions != [] {
      NeverPanics(actions[..|actions| - 1]);
      StepSafe(Run(actions[..|actions| - 1]).state, actions[|actions| - 1]);
    }
  }

  ghost function After(actions: seq<Action>): State {
    NeverPanics(actions);
    Run(actions).state
  }

  lemma AfterSnoc(actions: seq<Action>)
    requires actions != []
    ensures Inv(After(actions[..|actions| - 1]))
    ensures Continue(After(actions)) == Step(After(actions[..|actions| - 1]), actions[|actions| - 1])
  {
    NeverPanics(actions[..|actions| - 1]);
    NeverPanics(actions);
  }

  // ---- Who is registered, read off the actions ----

  ghost predicate NoShutdown(actions: seq<Action>, k: int) {
    forall j :: 0 <= j < |actions| && k < j ==> !actions[j].Shutdown?
  }

  /** The hub was started and has not shut down since. */
  ghost predicate Running(actions: seq<Action>) {
    exists k :: 0 <= k < |actions| && actions[k].Start? && NoShutdown(actions, k)
  }

  /** How many subscriptions there were. */
  ghost function Subscriptions(actions: seq<Action>): nat {
    if actions == [] then 0
    else Subscriptions(actions[..|actions| - 1]) + (if actions[|actions| - 1].Subscribe? then 1 else 0)
  }

  /** The `k`-th action gives out `id`: it is the `id`-th subscription. */
  ghost predicate GivesOut(actions: seq<Action>, k: int, id: nat) {
    0 <= k < |actions| && actions[k].Subscribe? && Subscriptions(actions[..k + 1]) == id
  }

  /** The `j`-th action ends the registration of `id`: its own unsubscription, or the shutdown of a running hub. */
  ghost predicate EndsAt(actions: seq<Action>, j: int, id: nat) {
    0 <= j < |actions| && (actions[j] == Unsubscribe(id) || (actions[j].Shutdown? && Running(actions[..j])))
  }

  /** Some subscription gave out `id`, and nothing since has ended its registration. */
  ghost predicate Registered(actions: seq<Action>, id: nat) {
    exists k :: GivesOut(actions, k, id) && forall j :: k < j ==> !EndsAt(actions, j, id)
  }

  /** The hub shut down while `id` was registered. */
  ghost predicate ShutDown(actions: seq<Action>, id: nat) {
    exists j :: 0 <= j < |actions| && actions[j].Shutdown? && Running(actions[..j]) && Registered(actions[..j], id)
  }

  lemma RunningNext(actions: seq<Action>, a: Action)
    ensures Running(actions + [a]) <==> a.Start? || (Running(actions) && !a.Shutdown?)
  {
    var more := actions + [a];
    if a.Start? {
      assert more[|actions|].Start? && NoShutdown(more, |actions|);
    } else {
      if Running(more) {
        var k :| 0 <= k < |more| && more[k].Start? && NoShutdown(more, k);
        assert more[|actions|] == a && actions[k].Start?;
        assert forall j :: 0 <= j < |actions| ==> more[j] == actions[j];
        assert NoShutdown(actions, k);
      }
      if Running(actions) && !a.Shutdown? {
        var k :| 0 <= k < |actions| && actions[k].Start? && NoShutdown(actions, k);
        assert more[k].Start? && NoShutdown(more, k);
      }
    }
  }

  lemma SubscriptionsNext(actions: seq<Action>, a: Action)
    ensures Subscriptions(actions + [a]) == Subscriptions(actions) + if a.Subscribe? then 1 else 0
  {
    assert (actions + [a])[..|actions|] == actions;
  }

  lemma PrefixActs(actions: seq<Action>, a: Action, j: nat, id: nat)
    requires j < |actions|
    ensures GivesOut(actions + [a], j, id) <==> GivesOut(actions, j, id)
    ensures EndsAt(actions + [a], j, id) <==> EndsAt(actions, j, id)
  {
    assert (actions + [a])[..j + 1] == actions[..j + 1] && (actions + [a])[..j] == actions[..j];
  }

  lemma LastActs(actions: seq<Action>, a: Action, id: nat)
    ensures GivesOut(actions + [a], |actions|, id) <==> a.Subscribe? && Subscriptions(actions) + 1 == id
    ensures EndsAt(actions + [a], |actions|, id) <==> a == Unsubscribe(id) || (a.Shutdown? && Running(actions))
  {
    hide Running;
    SubscriptionsNext(actions, a);
    assert (actions + [a])[..|actions| + 1] == actions + [a] && (actions + [a])[..|actions|] == actions;
  }

  lemma RegisteredNext(actions: seq<Action>, a: Action, id: nat)
    ensures Registered(actions + [a], id) <==>
      || (a.Subscribe? && Subscriptions(actions) + 1 == id)
      || (Registered(actions, id) && a != Unsubscribe(id) && !(a.Shutdown? && Running(actions)))
  {
    hide Running, Subscriptions;
    var more := actions + [a];
    LastActs(actions, a, id);
    forall j: nat | j < |actions| ensures GivesOut(more, j, id) <==> GivesOut(actions, j, id) {
      PrefixActs(actions, a, j, id);
    }
    forall j: nat | j < |actions| ensures EndsAt(more, j, id) <==> EndsAt(actions, j, id) {
      PrefixActs(actions, a, j, id);
    }
    if GivesOut(more, |actions|, id) {
      assert forall j :: |actions| < j ==> !EndsAt(more, j, id);
    } else if Registered(actions, id) {
      var k :| GivesOut(actions, k, id) && forall j :: k < j ==> !EndsAt(actions, j, id);
      assert GivesOut(more, k, id);
    }
  }

  lemma ShutDownNext(actions: seq<Action>, a: Action, id: nat)
    ensures ShutDown(actions + [a], id) <==>
      ShutDown(actions, id) || (a.Shutdown? && Running(actions) && Registered(actions, id))
  {
    hide Running, Registered;
    var more := actions + [a];
    forall j | 0 <= j < |actions| ensures more[..j] == actions[..j] && more[j] == actions[j] {
    }
    assert more[..|actions|] == actions && more[|actions|] == a;
  }

  lemma StepRegisters(s: State, a: Action, id: nat)
    requires Inv(s)
    ensures var t := Step(s, a).state;
      && (id in t.subs <==> (a.Subscribe? && s.nextID + 1 == id)
                            || (id in s.subs && a != Unsubscribe(id) && !(a.Shutdown? && s.running)))
      && (t.running <==> a.Start? || (s.running && !a.Shutdown?))
      && t.nextID == s.nextID + (if a.Subscribe? then 1 else 0)
      && (id in t.chans <==> id in s.chans || (a.Subscribe? && s.nextID + 1 == id))
      && (id in t.chans ==>
           (t.chans[id].closed <==>
              id in s.chans && (s.chans[id].closed || (a.Shutdown? && s.running && id in s.subs))))
  {
  }

  lemma NothingHappened(id: nat)
    ensures After([]) == INIT && !Running([]) && !Registered([], id) && Subscriptions([]) == 0 && !ShutDown([], id)
  {
  }

  lemma {:induction false} ShutDownGiven(actions: seq<Action>, id: nat)
    ensures ShutDown(actions, id) || Registered(actions, id) ==> 1 <= id <= Subscriptions(actions)
  {
    hide Running, Registered, ShutDown;
    if actions != [] {
      var before, a := actions[..|actions| - 1], actions[|actions| - 1];
      assert actions == before + [a];
      ShutDownGiven(before, id);
      RegisteredNext(before, a, id);
      SubscriptionsNext(before, a);
      ShutDownNext(before, a, id);
    } else {
      NothingHappened(id);
    }
  }

  /**
   * Over every run the actions alone say who is registered, whether the hub runs, which channels there are,
   * and which of them are closed: those whose subscriber was registered when the hub shut down.
   */
  lemma {:induction false} RegisteredIff(actions: seq<Action>, id: nat)
    ensures id in After(actions).subs <==> Registered(actions, id)
    ensures After(actions).running <==> Running(actions)
    ensures After(actions).nextID == Subscriptions(actions)
    ensures id in After(actions).chans <==> 1 <= id <= Subscriptions(actions)
    ensures id in After(actions).chans ==> (After(actions).chans[id].closed <==> ShutDown(actions, id))
  {
    hide After, Step, Running, Registered, ShutDown, Inv, Subscriptions;
    if actions != [] {
      var before, a := actions[..|actions| - 1], actions[|actions| - 1];
      assert actions == before + [a];
      RegisteredIff(before, id);
      AfterSnoc(actions);
      StepRegisters(After(before), a, id);
      RunningNext(before, a);
      RegisteredNext(before, a, id);
      SubscriptionsNext(before, a);
      ShutDownNext(before, a, id);
      ShutDownGiven(before, id);
    } else {
      NothingHappened(id);
    }
  }

  // ---- Delivery ----

  /** The message that an action of the running hub hands to every registered subscriber, if any. */
  ghost function BroadcastBy(before: seq<Action>, a: Action): seq<Message> {
    if a.Broadcast? && Running(before) && After(before).queue != [] then [After(before).queue[0]] else []
  }

  ghost function HandedBy(s: State, a: Action): seq<Message> {
    if a.Broadcast? && s.running && s.queue != [] then [s.queue[0]] else []
  }

  lemma BroadcastIsHanded(before: seq<Action>, a: Action)
    ensures BroadcastBy(before, a) == HandedBy(After(before), a)
  {
    hide Running, After;
    RegisteredIff(before, 0);
  }

  /** Everything broadcast. */
  ghost function Broadcasts(actions: seq<Action>): seq<Message> {
    if actions == [] then []
    else
      var before := actions[..|actions| - 1];
      Broadcasts(before) + BroadcastBy(before, actions[|actions| - 1])
  }

  /** Everything broadcast while `id` was registered. */
  ghost function Addressed(actions: seq<Action>, id: nat): seq<Message> {
    if actions == [] then []
    else
      var before := actions[..|actions| - 1];
      Addressed(before, id)
      + (if Registered(before, id) then BroadcastBy(before, actions[|actions| - 1]) else [])
  }

  /** Everything `id` has received. */
  ghost function Received(actions: seq<Action>, id: nat): seq<Message> {
    if actions == [] then []
    else
      var before, a := actions[..|actions| - 1], actions[|actions| - 1];
      Received(before, id)
      + (if a == Receive(id) && id in After(before).chans && After(before).chans[id].buffer != []
         then [After(before).chans[id].buffer[0]] else [])
  }

  ghost function Buffer(actions: seq<Action>, id: nat): seq<Message> {
    if id in After(actions).chans then After(actions).chans[id].buffer else []
  }

  ghost predicate DropsAt(before: seq<Action>, a: Action, id: nat) {
    && Registered(before, id) && BroadcastBy(before, a) != []
    && Buffer(before + [a], id) == Buffer(before, id)
  }

  /** What was broadcast to `id` with its buffer unchanged by it. */
  ghost function Dropped(actions: seq<Action>, id: nat): nat {
    if actions == [] then 0
    else
      var before, a := actions[..|actions| - 1], actions[|actions| - 1];
      Dropped(before, id) + (if DropsAt(before, a, id) then 1 else 0)
  }

  ghost function AcceptedBy(s: State, a: Action): seq<Message> {
    if a.Publish? && |s.queue| < QUEUE_SIZE then [a.msg] else []
  }

  /** Everything accepted into the central queue. */
  ghost function Accepted(actions: seq<Action>): seq<Message> {
    if actions == [] then []
    else
      var before := actions[..|actions| - 1];
      Accepted(before) + AcceptedBy(After(before), actions[|actions| - 1])
  }

  /** `xs` is `ys` with some elements left out. */
  ghost predicate Subsequence<T>(xs: seq<T>, ys: seq<T>) {
    if xs == [] then true
    else if ys == [] then false
    else
      || (xs[|xs| - 1] == ys[|ys| - 1] && Subsequence(xs[..|xs| - 1], ys[..|ys| - 1]))
      || Subsequence(xs, ys[..|ys| - 1])
  }

  lemma SubsequenceSnoc<T>(xs: seq<T>, ys: seq<T>, y: T)
    requires Subsequence(xs, ys)
    ensures Subsequence(xs, ys + [y]) && Subsequence(xs + [y], ys + [y])
  {
    assert (ys + [y])[..|ys|] == ys && (xs + [y])[..|xs|] == xs;
  }

  lemma {:induction false} SubsequenceTrans<T>(xs: seq<T>, ys: seq<T>, zs: seq<T>)
    requires Subsequence(xs, ys) && Subsequence(ys, zs)
    ensures Subsequence(xs, zs)
    decreases |xs| + |ys| + |zs|
  {
    if xs != [] {
      var x, y, z := xs[..|xs| - 1], ys[..|ys| - 1], zs[..|zs| - 1];
      if Subsequence(ys, z) {
        SubsequenceTrans(xs, ys, z);
      } else if Subsequence(xs, y) {
        assert Subsequence(y, z);
        SubsequenceTrans(xs, y, z);
      } else {
        SubsequenceTrans(x, y, z);
      }
    }
  }

  lemma {:induction false} SubsequenceLength<T>(xs: seq<T>, ys: seq<T>)
    requires Subsequence(xs, ys)
    ensures |xs| <= |ys|
    ensures |xs| == |ys| ==> xs == ys
  {
    if xs != [] {
      var x, y := xs[..|xs| - 1], ys[..|ys| - 1];
      if xs[|xs| - 1] == ys[|ys| - 1] && Subsequence(x, y) {
        SubsequenceLength(x, y);
        if |xs| == |ys| { assert xs == x + [xs[|xs| - 1]] && ys == y + [ys[|ys| - 1]]; }
      } else {
        SubsequenceLength(xs, y);
      }
    }
  }

  /** What one action does to one subscriber's accounts. */
  lemma StepDelivers(s: State, a: Action, id: nat)
    requires Inv(s)
    ensures var s', b := Step(s, a).state, if id in s.chans then s.chans[id].buffer else [];
      var b' := if id in s'.chans then s'.chans[id].buffer else [];
      var msg := if id in s.subs then HandedBy(s, a) else [];
      if a == Receive(id) && b != [] then b == [b[0]] + b' && msg == []
      else if |b| < SUBSCRIBER_BUFFER then b' == b + msg else b' == b
  {
  }

  lemma StepQueues(s: State, a: Action)
    requires Inv(s)
    ensures HandedBy(s, a) + Step(s, a).state.queue == s.queue + AcceptedBy(s, a)
  {
  }

  lemma AccountsNext(actions: seq<Action>, id: nat)
    requires actions != []
    ensures var before, a := actions[..|actions| - 1], actions[|actions| - 1];
      && Addressed(actions, id) == Addressed(before, id)
           + (if Registered(before, id) then BroadcastBy(before, a) else [])
      && Received(actions, id) == Received(before, id)
           + (if a == Receive(id) && Buffer(before, id) != [] then [Buffer(before, id)[0]] else [])
      && Dropped(actions, id) == Dropped(before, id)
           + (if Registered(before, id) && BroadcastBy(before, a) != [] && Buffer(actions, id) == Buffer(before, id)
              then 1 else 0)
  {
    hide Registered, BroadcastBy, After;
    assert actions[..|actions| - 1] + [actions[|actions| - 1]] == actions;
  }

  lemma BuffersNext(actions: seq<Action>, id: nat)
    requires actions != []
    ensures var before, a := actions[..|actions| - 1], actions[|actions| - 1];
      var b, b' := Buffer(before, id), Buffer(actions, id);
      var msg := if Registered(before, id) then BroadcastBy(before, a) else [];
      && |msg| <= 1
      && if a == Receive(id) && b != [] then b == [b[0]] + b' && msg == []
         else if |b| < SUBSCRIBER_BUFFER then b' == b + msg else b' == b
  {
    hide Step, After, Running, Registered, BroadcastBy, Inv;
    var before, a := actions[..|actions| - 1], actions[|actions| - 1];
    AfterSnoc(actions);
    StepDelivers(After(before), a, id);
    BroadcastIsHanded(before, a);
    RegisteredIff(before, id);
  }

  /** One action books one message as received, buffered or dropped, or books nothing. */
  lemma Books(actions: seq<Action>, id: nat)
    requires actions != []
    ensures var before := actions[..|actions| - 1];
      var got, b := Received(before, id), Buffer(before, id);
      var addressed, dropped := Addressed(before, id), Dropped(before, id);
      || (b != [] && b == [b[0]] + Buffer(actions, id) && Received(actions, id) == got + [b[0]]
          && Addressed(actions, id) == addressed && Dropped(actions, id) == dropped)
      || (Addressed(actions, id) != [] && Received(actions, id) == got
          && (var msg := Addressed(actions, id)[|Addressed(actions, id)| - 1];
              && Addressed(actions, id) == addressed + [msg]
              && if Buffer(actions, id) == b then Dropped(actions, id) == dropped + 1
                 else Buffer(actions, id) == b + [msg] && Dropped(actions, id) == dropped))
      || (Addressed(actions, id) == addressed && Received(actions, id) == got
          && Buffer(actions, id) == b && Dropped(actions, id) == dropped)
  {
    hide Step, After, Running, Registered, BroadcastBy, HandedBy, Inv, Received, Buffer, Addressed, Dropped;
    var before, a := actions[..|actions| - 1], actions[|actions| - 1];
    assert before + [a] == actions;
    BuffersNext(actions, id);
    AccountsNext(actions, id);
  }

  lemma AfterNothing()
    ensures After([]) == INIT
  {
  }

  lemma NothingDelivered(id: nat)
    ensures Received([], id) == [] && Buffer([], id) == [] && Addressed([], id) == [] && Dropped([], id) == 0
    ensures Subsequence<Message>([] + [], [])
  {
    AfterNothing();
  }

  lemma Regroup<T>(xs: seq<T>, a: seq<T>, b: seq<T>, c: seq<T>, d: seq<T>)
    requires a + b == c + d
    ensures (xs + a) + b == (xs + c) + d
  {
    assert (xs + a) + b == xs + (a + b) && (xs + c) + d == xs + (c + d);
  }

  /**
   * Each subscriber has received, and has waiting, an in-order selection of what was broadcast while it
   * was registered; what it got and what it lost add up to what was broadcast.
   */
  lemma {:induction false} Delivery(actions: seq<Action>, id: nat)
    ensures Subsequence(Received(actions, id) + Buffer(actions, id), Addressed(actions, id))
    ensures |Received(actions, id)| + |Buffer(actions, id)| + Dropped(actions, id) == |Addressed(actions, id)|
  {
    hide Received, Buffer, Addressed, Dropped, Subsequence;
    if actions != [] {
      var before := actions[..|actions| - 1];
      Delivery(before, id);
      Books(actions, id);
      var got, b := Received(before, id), Buffer(before, id);
      if b != [] && b == [b[0]] + Buffer(actions, id) {
        Regroup(got, [], b, [b[0]], Buffer(actions, id));
        assert got + [] == got;
      }
      if Addressed(actions, id) != [] {
        var msg := Addressed(actions, id)[|Addressed(actions, id)| - 1];
        SubsequenceSnoc(got + b, Addressed(before, id), msg);
        assert (got + b) + [msg] == got + (b + [msg]);
      }
    } else {
      NothingDelivered(id);
    }
  }

  /** A message is lost only to a subscriber whose buffer is full. */
  lemma DropOnlyWhenFull(before: seq<Action>, a: Action, id: nat)
    requires DropsAt(before, a, id)
    ensures |Buffer(before, id)| == 64
  {
    hide Step, After, Running, Registered, BroadcastBy;
    BroadcastIsHanded(before, a);
    RegisteredIff(before, id);
    assert (before + [a])[..|before|] == before;
    AfterSnoc(before + [a]);
    StepDelivers(After(before), a, id);
  }

  /** A subscriber that never loses a message has exactly what was broadcast while it was registered. */
  lemma NoLoss(actions: seq<Action>, id: nat)
    requires Dropped(actions, id) == 0
    ensures Received(actions, id) + Buffer(actions, id) == Addressed(actions, id)
  {
    Delivery(actions, id);
    SubsequenceLength(Received(actions, id) + Buffer(actions, id), Addressed(actions, id));
  }

  /** The central queue is first in, first out, and loses nothing it accepted. */
  lemma {:induction false} QueueIsFifo(actions: seq<Action>)
    ensures Broadcasts(actions) + After(actions).queue == Accepted(actions)
  {
    if actions != [] {
      hide Step, After, BroadcastBy, HandedBy, AcceptedBy;
      var before, a := actions[..|actions| - 1], actions[|actions| - 1];
      QueueIsFifo(before);
      AfterSnoc(actions);
      BroadcastIsHanded(before, a);
      StepQueues(After(before), a);
      Regroup(Broadcasts(before), BroadcastBy(before, a), After(actions).queue,
              After(before).queue, AcceptedBy(After(before), a));
    } else {
      AfterNothing();
    }
  }

  lemma SubsequenceRefl<T>(xs: seq<T>)
    ensures Subsequence(xs, xs)
  {
  }

  lemma BroadcastsNext(actions: seq<Action>, id: nat)
    requires actions != []
    ensures var before := actions[..|actions| - 1];
      var msg := BroadcastBy(before, actions[|actions| - 1]);
      && |msg| <= 1 && Broadcasts(actions) == Broadcasts(before) + msg
      && (Addressed(actions, id) == Addressed(before, id) + msg || Addressed(actions, id) == Addressed(before, id))
  {
    hide Registered, Running, After;
    assert Addressed(actions[..|actions| - 1], id) + [] == Addressed(actions[..|actions| - 1], id);
  }

  lemma SubsequenceMore<T>(xs: seq<T>, ys: seq<T>, more: seq<T>)
    requires Subsequence(xs, ys) && |more| <= 1
    ensures Subsequence(xs, ys + more) && Subsequence(xs + more, ys + more)
  {
    hide Subsequence;
    if more == [] {
      assert xs + more == xs && ys + more == ys;
    } else {
      assert more == [more[0]];
      SubsequenceSnoc(xs, ys, more[0]);
    }
  }

  lemma NothingBroadcast(id: nat)
    ensures Subsequence(Addressed([], id), Broadcasts([]))
  {
    SubsequenceRefl<Message>([]);
  }

  lemma {:induction false} AddressedIsBroadcast(actions: seq<Action>, id: nat)
    ensures Subsequence(Addressed(actions, id), Broadcasts(actions))
  {
    hide Subsequence, Addressed, Broadcasts, BroadcastBy;
    if actions != [] {
      var before := actions[..|actions| - 1];
      AddressedIsBroadcast(before, id);
      BroadcastsNext(actions, id);
      SubsequenceMore(Addressed(before, id), Broadcasts(before), BroadcastBy(before, actions[|actions| - 1]));
    } else {
      NothingBroadcast(id);
    }
  }

  lemma SubsequencePrefix<T>(xs: seq<T>, zs: seq<T>)
    ensures Subsequence(xs, xs + zs)
    decreases |zs|
  {
    if zs == [] {
      assert xs + zs == xs;
      SubsequenceRefl(xs);
    } else {
      var init := zs[..|zs| - 1];
      SubsequencePrefix(xs, init);
      assert xs + zs == (xs + init) + [zs[|zs| - 1]];
      SubsequenceSnoc(xs, xs + init, zs[|zs| - 1]);
    }
  }

  /** End to end: a subscriber receives published messages only, each at most once, in the order of publication. */
  lemma ReceivedInPublicationOrder(actions: seq<Action>, id: nat)
    ensures Subsequence(Received(actions, id), Accepted(actions))
  {
    var got, b := Received(actions, id), Buffer(actions, id);
    SubsequencePrefix(got, b);
    Delivery(actions, id);
    SubsequenceTrans(got, got + b, Addressed(actions, id));
    AddressedIsBroadcast(actions, id);
    SubsequenceTrans(got, Addressed(actions, id), Broadcasts(actions));
    QueueIsFifo(actions);
    SubsequencePrefix(Broadcasts(actions), After(actions).queue);
    SubsequenceTrans(got, Broadcasts(actions), Accepted(actions));
  }

  // ---- The hub as the object whose channels are shared with its subscribers ----

  /** A bounded channel; the preconditions are what Go checks at run time with a panic. */
  class Channel {
    var buffer: seq<Message>
    var closed: bool

    ghost function View(): Chan reads this { Chan(buffer, closed) }

    constructor ()
      ensures View() == Chan([], false)
    {
      buffer, closed := [], false;
    }

    method TrySend(msg: Message)
      requires !closed
      modifies this
      ensures View() == Offer(old(View()), msg)
    {
      if |buffer| < SUBSCRIBER_BUFFER {
        buffer := buffer + [msg];
      }
    }

    method Close()
      requires !closed
      modifies this
      ensures View() == old(View()).(closed := true)
    {
      closed := true;
    }
  }

  class Subscriber {
    const id: nat
    const ch: Channel

    constructor (id: nat, ch: Channel)
      ensures this.id == id && this.ch == ch
    {
      this.id, this.ch := id, ch;
    }
  }

  lemma RunSnoc(actions: seq<Action>, a: Action)
    requires Run(actions).Continue?
    ensures Run(actions + [a]) == Step(Run(actions).state, a)
  {
    hide Step;
    assert (actions + [a])[..|actions|] == actions;
  }

  lemma BroadcastStep(s: State)
    requires Inv(s) && s.running && s.queue != []
    ensures Step(s, Action.Broadcast)
         == Continue(State(s.subs, Offered(s.chans, s.subs, s.queue[0]), s.nextID, s.queue[1..], true))
  {
    hide Offered;
  }

  lemma ShutdownStep(s: State)
    requires Inv(s) && s.running
    ensures Step(s, Action.Shutdown) == Continue(State({}, Closed(s.chans, s.subs), s.nextID, s.queue, false))
  {
    hide Closed;
  }

  lemma SubscribeStep(s: State)
    requires Inv(s)
    ensures var id := s.nextID + 1;
      && id !in s.chans
      && Step(s, Action.Subscribe)
         == Continue(State(s.subs + {id}, s.chans[id := Chan([], false)], id, s.queue, s.running))
  {
  }

  lemma DoneGrows(ids: set<nat>, done: set<nat>, id: nat)
    requires done <= ids && id in ids - done
    ensures done + {id} <= ids && |ids - (done + {id})| < |ids - done|
  {
    assert ids - done == (ids - (done + {id})) + {id};
  }

  lemma OfferedIs(chans: map<nat, Chan>, to: set<nat>, msg: Message)
    ensures Offered(chans, to, msg).Keys == chans.Keys
    ensures forall id :: id in chans ==>
      && Offered(chans, to, msg)[id].closed == chans[id].closed
      && Offered(chans, to, msg)[id].buffer
         == if id in to && |chans[id].buffer| < 64 then chans[id].buffer + [msg] else chans[id].buffer
  {
  }

  lemma ClosedIs(chans: map<nat, Chan>, which: set<nat>)
    ensures Closed(chans, which).Keys == chans.Keys
    ensures forall id :: id in chans ==>
      && Closed(chans, which)[id].buffer == chans[id].buffer
      && (Closed(chans, which)[id].closed <==> chans[id].closed || id in which)
  {
  }

  lemma OfferedNone(chans: map<nat, Chan>, msg: Message)
    ensures Offered(chans, {}, msg) == chans
  {
  }

  lemma OfferedNext(chans: map<nat, Chan>, done: set<nat>, id: nat, msg: Message)
    requires id in chans && id !in done
    ensures Offered(chans, done, msg)[id := Offer(Offered(chans, done, msg)[id], msg)]
         == Offered(chans, done + {id}, msg)
    ensures Offered(chans, done, msg)[id].closed == chans[id].closed
  {
  }

  lemma ClosedNone(chans: map<nat, Chan>)
    ensures Closed(chans, {}) == chans
  {
  }

  lemma ClosedNext(chans: map<nat, Chan>, done: set<nat>, id: nat)
    requires id in chans && id !in done
    ensures Closed(chans, done)[id := Closed(chans, done)[id].(closed := true)] == Closed(chans, done + {id})
    ensures Closed(chans, done)[id].closed == chans[id].closed
  {
  }

  class Broadcaster {
    var subs: map<nat, Subscriber>
    var nextID: nat
    var publishQueue: seq<Message>
    var running: bool
    ghost var channels: map<nat, Channel>

    /** Every subscription ever made has its own channel, and the registered ones still lead to theirs. */
    ghost predicate Linked()
      reads this
    {
      && (forall i, j :: i in channels && j in channels && i != j ==> channels[i] != channels[j])
      && (forall id :: id in subs ==> id in channels && subs[id].ch == channels[id])
    }

    ghost function Chans(): map<nat, Chan>
      reads this, channels.Values
    {
      map id | id in channels :: channels[id].View()
    }

    ghost function View(): State
      reads this, channels.Values
    {
      State(subs.Keys, Chans(), nextID, publishQueue, running)
    }

    /** The hub is in the state that the actions so far lead to. */
    ghost predicate Follows(actions: seq<Action>)
      reads this, channels.Values
    {
      Linked() && Run(actions) == Continue(View())
    }

    constructor ()
      ensures Follows([])
    {
      subs, nextID, publishQueue, running, channels := map[], 0, [], false, map[];
    }

    lemma EachChan()
      ensures Chans().Keys == channels.Keys && forall id :: id in channels ==> Chans()[id] == channels[id].View()
    {
    }

    lemma ChansAre(chans: map<nat, Chan>)
      requires channels.Keys == chans.Keys
      requires forall id :: id in channels ==> channels[id].View() == chans[id]
      ensures Chans() == chans
    {
    }

    ghost predicate AllOpen()
      reads this, channels.Values
    {
      forall id :: id in subs ==> id in Chans() && !Chans()[id].closed
    }

    method Publish(msg: Message, ghost actions: seq<Action>)
      requires Follows(actions)
      modifies this`publishQueue
      ensures Follows(actions + [Action.Publish(msg)])
      ensures publishQueue == if |old(publishQueue)| < 256 then old(publishQueue) + [msg] else old(publishQueue)
    {
      hide Run;
      RunSnoc(actions, Action.Publish(msg));
      ghost var before := Chans();
      if |publishQueue| < QUEUE_SIZE {
        publishQueue := publishQueue + [msg];
      }
      ChansAre(before);
    }

    method Register() returns (sub: Subscriber)
      requires Linked() && nextID + 1 !in channels
      modifies this
      ensures Linked() && fresh(sub.ch) && sub.id == old(nextID) + 1 && subs == old(subs)[sub.id := sub]
      ensures var s, id := old(View()), old(nextID) + 1;
        View() == State(s.subs + {id}, s.chans[id := Chan([], false)], id, s.queue, s.running)
    {
      ghost var before := Chans();
      nextID := nextID + 1;
      var ch := new Channel();
      sub := new Subscriber(nextID, ch);
      subs := subs[nextID := sub];
      channels := channels[nextID := ch];
      ChansAre(before[nextID := Chan([], false)]);
      assert subs.Keys == old(subs).Keys + {nextID};
    }

    method Subscribe(ghost actions: seq<Action>) returns (sub: Subscriber)
      requires Follows(actions)
      modifies this
      ensures Follows(actions + [Action.Subscribe])
      ensures sub.id == old(nextID) + 1 == nextID && sub.id !in old(subs) && fresh(sub.ch)
      ensures subs == old(subs)[sub.id := sub] && publishQueue == old(publishQueue) && running == old(running)
    {
      hide Run, Step, Inv;
      RunSnoc(actions, Action.Subscribe);
      NeverPanics(actions);
      SubscribeStep(View());
      sub := Register();
    }

    method Unsubscribe(id: nat, ghost actions: seq<Action>)
      requires Follows(actions)
      modifies this`subs
      ensures Follows(actions + [Action.Unsubscribe(id)])
      ensures subs == old(subs) - {id} && id !in subs
    {
      hide Run;
      RunSnoc(actions, Action.Unsubscribe(id));
      ghost var before := Chans();
      subs := subs - {id};
      ChansAre(before);
    }

    /** `Run` begins. */
    method Start(ghost actions: seq<Action>)
      requires Follows(actions)
      modifies this`running
      ensures Follows(actions + [Action.Start]) && running
    {
      hide Run;
      RunSnoc(actions, Action.Start);
      ghost var before := Chans();
      running := true;
      ChansAre(before);
    }

    method SendTo(id: nat, msg: Message)
      requires Linked() && id in subs && !Chans()[id].closed
      modifies channels[id]
      ensures unchanged(this) && Linked()
      ensures Chans() == old(Chans())[id := Offer(old(Chans())[id], msg)]
    {
      ghost var before := Chans();
      subs[id].ch.TrySend(msg);
      ChansAre(before[id := channels[id].View()]);
    }

    method SendAll(msg: Message)
      requires Linked() && AllOpen()
      modifies channels.Values
      ensures unchanged(this) && Linked()
      ensures Chans() == Offered(old(Chans()), subs.Keys, msg)
    {
      hide Offer, Offered, Chans;
      ghost var before := Chans();
      var ids, done := subs.Keys, {};
      OfferedNone(before, msg);
      while done != ids
        invariant unchanged(this) && Linked() && done <= ids == subs.Keys
        invariant Chans() == Offered(before, done, msg)
        decreases |ids - done|
      {
        var id :| id in ids - done;
        OfferedNext(before, done, id, msg);
        SendTo(id, msg);
        DoneGrows(ids, done, id);
        done := done + {id};
      }
    }

    /** One turn of `Run`'s loop: takes the oldest queued message and offers it to every subscriber. */
    method Broadcast(ghost actions: seq<Action>)
      requires Follows(actions) && running && publishQueue != []
      modifies this`publishQueue, channels.Values
      ensures Follows(actions + [Action.Broadcast]) && publishQueue == old(publishQueue)[1..]
      ensures Chans().Keys == old(Chans()).Keys && forall id :: id in Chans() ==>
        var before := old(Chans())[id];
        && Chans()[id].closed == before.closed
        && Chans()[id].buffer
           == if id in subs && |before.buffer| < 64 then before.buffer + [old(publishQueue)[0]] else before.buffer
    {
      hide Run, Step, Offered, Chans;
      RunSnoc(actions, Action.Broadcast);
      NeverPanics(actions);
      BroadcastStep(View());
      var msg := publishQueue[0];
      ghost var before := Chans();
      EachChan();
      publishQueue := publishQueue[1..];
      ChansAre(before);
      SendAll(msg);
      OfferedIs(before, subs.Keys, msg);
    }

    method CloseOne(id: nat)
      requires Linked() && id in subs && !Chans()[id].closed
      modifies channels[id]
      ensures unchanged(this) && Linked()
      ensures Chans() == old(Chans())[id := old(Chans())[id].(closed := true)]
    {
      ghost var before := Chans();
      subs[id].ch.Close();
      ChansAre(before[id := channels[id].View()]);
    }

    method CloseEach()
      requires Linked() && AllOpen()
      modifies channels.Values
      ensures unchanged(this) && Linked()
      ensures Chans() == Closed(old(Chans()), subs.Keys)
    {
      hide Closed, Chans;
      ghost var before := Chans();
      var ids, done := subs.Keys, {};
      ClosedNone(before);
      while done != ids
        invariant unchanged(this) && Linked() && done <= ids == subs.Keys
        invariant Chans() == Closed(before, done)
        decreases |ids - done|
      {
        var id :| id in ids - done;
        ClosedNext(before, done, id);
        CloseOne(id);
        DoneGrows(ids, done, id);
        done := done + {id};
      }
    }

    /** `closeAll`, when `Run` returns. */
    method CloseAll(ghost actions: seq<Action>)
      requires Follows(actions) && running
      modifies this, channels.Values
      ensures Follows(actions + [Action.Shutdown]) && subs == map[] && !running && publishQueue == old(publishQueue)
      ensures Chans().Keys == old(Chans()).Keys && forall id :: id in Chans() ==>
        var before := old(Chans())[id];
        Chans()[id].buffer == before.buffer && (Chans()[id].closed <==> before.closed || id in old(subs))
    {
      hide Run, Step, Closed, Chans;
      RunSnoc(actions, Action.Shutdown);
      NeverPanics(actions);
      ShutdownStep(View());
      ghost var closed := Closed(Chans(), subs.Keys);
      CloseEach();
      EachChan();
      subs, running := map[], false;
      ChansAre(closed);
      ClosedIs(old(Chans()), old(subs).Keys);
      assert subs.Keys == {};
      assert View() == State({}, closed, nextID, publishQueue, false);
    }

    /** The subscriber's end: takes the oldest waiting message; without one, tells whether the channel is closed. */
    method Receive(id: nat, ch: Channel, ghost actions: seq<Action>) returns (msg: Option<Message>, closed: bool)
      requires Follows(actions) && id in channels && channels[id] == ch
      modifies ch
      ensures Follows(actions + [Action.Receive(id)])
      ensures msg == if old(ch.buffer) == [] then None else Some(old(ch.buffer)[0])
      ensures closed == (old(ch.buffer) == [] && ch.closed)
    {
      hide Run;
      RunSnoc(actions, Action.Receive(id));
      ghost var before := Chans();
      if ch.buffer == [] {
        return None, ch.closed;
      }
      msg, closed := Some(ch.buffer[0]), false;
      ch.buffer := ch.buffer[1..];
      ChansAre(before[id := ch.View()]);
    }
  }
}
