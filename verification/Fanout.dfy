/** The SSE fanout: subscribers that connect, read and disconnect while broadcasts are in
    progress (handlers/sse_handler.go). */
module Fanout {
  import opened Base
  import opened CoalMachine
  import opened Coalescer

  /** A subscriber: its queue, what it has received, how many events were dropped for it, and
      the broadcasts whose snapshot held it. */
  datatype Client = Client(queue: seq<SSEEvent>, received: seq<SSEEvent>, dropped: nat, sent: seq<SSEEvent>)

  /** A broadcast in progress: its event and the members of its snapshot still to be offered it. */
  datatype Broadcast = Broadcast(ev: SSEEvent, rest: set<nat>)

  datatype Fan = Fan(clients: map<nat, Client>, subs: set<nat>, current: Option<Broadcast>)

  datatype FanStep =
    | Connect(id: nat)
    | Disconnect(id: nat)
    | StartBroadcast(ev: SSEEvent)
    | Deliver(id: nat)
    | EndBroadcast
    | Receive(id: nat)

  predicate FanEnabled(s: Fan, step: FanStep) {
    match step
    case Connect(id) => id !in s.clients
    case Disconnect(id) => true
    case StartBroadcast(_) => s.current.None?
    case Deliver(id) => s.current.Some? && id in s.current.value.rest && id in s.clients
    case EndBroadcast => s.current.Some? && s.current.value.rest == {}
    case Receive(id) => id in s.subs && id in s.clients && s.clients[id].queue != []
  }

  function Delivered(cl: Client, ev: SSEEvent): Client {
    if |cl.queue| < SUBSCRIBER_BUFFER_SIZE then cl.(queue := Offer(cl.queue, ev)) else cl.(dropped := cl.dropped + 1)
  }

  /** A step that is not enabled does nothing, so every list of steps is a run. */
  function FanAfter(s: Fan, step: FanStep): Fan {
    if !FanEnabled(s, step) then s else
      match step
      case Connect(id) => s.(clients := s.clients[id := Client([], [], 0, [])], subs := s.subs + {id})
      case Disconnect(id) => s.(subs := s.subs - {id})
      case StartBroadcast(ev) =>
        s.(current := Some(Broadcast(ev, s.subs)),
           clients := map id | id in s.clients ::
             if id in s.subs then s.clients[id].(sent := s.clients[id].sent + [ev]) else s.clients[id])
      case Deliver(id) =>
        var b := s.current.value;
        s.(current := Some(b.(rest := b.rest - {id})), clients := s.clients[id := Delivered(s.clients[id], b.ev)])
      case EndBroadcast => s.(current := None)
      case Receive(id) =>
        var cl := s.clients[id];
        s.(clients := s.clients[id := cl.(queue := cl.queue[1..], received := cl.received + [cl.queue[0]])])
  }

  const FAN_INIT := Fan(map[], {}, None)

  /** The state after a list of steps. */
  function Play(steps: seq<FanStep>): Fan {
    if steps == [] then FAN_INIT else FanAfter(Play(steps[..|steps| - 1]), steps[|steps| - 1])
  }

  /** a is a subsequence of b. */
  predicate Subsequence(a: seq<SSEEvent>, b: seq<SSEEvent>) {
    a == [] ||
    (b != [] &&
     (Subsequence(a, b[..|b| - 1]) ||
      (a[|a| - 1] == b[|b| - 1] && Subsequence(a[..|a| - 1], b[..|b| - 1]))))
  }

  lemma SubsequenceExtend(a: seq<SSEEvent>, b: seq<SSEEvent>, x: SSEEvent)
    requires Subsequence(a, b)
    ensures Subsequence(a, b + [x]) && Subsequence(a + [x], b + [x])
  {
    assert (b + [x])[..|b|] == b && (a + [x])[..|a|] == a;
  }

  /** What a client has been offered so far: all it was sent, but for a broadcast in progress
      that has not reached it. */
  function OfferedTo(s: Fan, id: nat): seq<SSEEvent>
    requires id in s.clients
  {
    var sent := s.clients[id].sent;
    if s.current.Some? && id in s.current.value.rest && sent != [] then sent[..|sent| - 1] else sent
  }

  predicate ClientOk(s: Fan, id: nat)
    requires id in s.clients
  {
    var cl := s.clients[id];
    && Subsequence(cl.received + cl.queue, OfferedTo(s, id))
    && |cl.received| + |cl.queue| + cl.dropped == |OfferedTo(s, id)|
    && |cl.queue| <= SUBSCRIBER_BUFFER_SIZE
    && (s.current.Some? && id in s.current.value.rest ==>
          cl.sent != [] && cl.sent[|cl.sent| - 1] == s.current.value.ev)
  }

  predicate FanInv(s: Fan) {
    && s.subs <= s.clients.Keys
    && (s.current.Some? ==> s.current.value.rest <= s.clients.Keys)
    && forall id :: id in s.clients ==> ClientOk(s, id)
  }

  lemma DeliverOk(s: Fan, id: nat)
    requires FanInv(s) && FanEnabled(s, Deliver(id))
    ensures ClientOk(FanAfter(s, Deliver(id)), id)
  {
    var s' := FanAfter(s, Deliver(id));
    var cl, ev := s.clients[id], s.current.value.ev;
    assert ClientOk(s, id);
    SubsequenceExtend(cl.received + cl.queue, OfferedTo(s, id), ev);
    assert OfferedTo(s', id) == OfferedTo(s, id) + [ev];
    assert cl.received + (cl.queue + [ev]) == (cl.received + cl.queue) + [ev];
  }

  lemma ReceiveOk(s: Fan, id: nat)
    requires FanInv(s) && FanEnabled(s, Receive(id))
    ensures ClientOk(FanAfter(s, Receive(id)), id)
  {
    var cl := s.clients[id];
    assert ClientOk(s, id);
    assert (cl.received + [cl.queue[0]]) + cl.queue[1..] == cl.received + cl.queue;
  }

  lemma BroadcastOk(s: Fan, ev: SSEEvent, id: nat)
    requires FanInv(s) && FanEnabled(s, StartBroadcast(ev)) && id in s.clients
    ensures ClientOk(FanAfter(s, StartBroadcast(ev)), id)
  {
    var s' := FanAfter(s, StartBroadcast(ev));
    assert ClientOk(s, id);
    if id in s.subs {
      assert s'.clients[id].sent == s.clients[id].sent + [ev];
      assert OfferedTo(s', id) == OfferedTo(s, id);
    }
  }

  /** A step that is not about this client's queue leaves it and its account alone. */
  lemma FanUntouched(s: Fan, step: FanStep, id: nat)
    requires FanInv(s) && FanEnabled(s, step) && id in s.clients
    requires !step.StartBroadcast? && step != Deliver(id) && step != Receive(id)
    ensures id in FanAfter(s, step).clients && FanAfter(s, step).clients[id] == s.clients[id]
    ensures OfferedTo(FanAfter(s, step), id) == OfferedTo(s, id)
    ensures var current := FanAfter(s, step).current;
            current.Some? && id in current.value.rest ==>
              && s.current.Some? && id in s.current.value.rest
              && current.value.ev == s.current.value.ev
  {
  }

  lemma FanStepClient(s: Fan, step: FanStep, id: nat)
    requires FanInv(s) && FanEnabled(s, step) && id in FanAfter(s, step).clients
    ensures ClientOk(FanAfter(s, step), id)
  {
    if step == Deliver(id) {
      DeliverOk(s, id);
    } else if step == Receive(id) {
      ReceiveOk(s, id);
    } else if step.StartBroadcast? {
      BroadcastOk(s, step.ev, id);
    } else if id in s.clients {
      assert ClientOk(s, id);
      FanUntouched(s, step, id);
    } else {
      assert step == Connect(id);
    }
  }

  lemma FanStepInv(s: Fan, step: FanStep)
    requires FanInv(s)
    ensures FanInv(FanAfter(s, step))
  {
    var s' := FanAfter(s, step);
    if FanEnabled(s, step) {
      forall id | id in s'.clients ensures ClientOk(s', id) {
        FanStepClient(s, step, id);
      }
    }
  }

  lemma {:induction false} FanReachable(steps: seq<FanStep>)
    ensures FanInv(Play(steps))
  {
    if steps != [] {
      FanReachable(steps[..|steps| - 1]);
      FanStepInv(Play(steps[..|steps| - 1]), steps[|steps| - 1]);
    }
  }

  /** Per-subscriber stream, in every reachable state: what a subscriber has received followed
      by what is queued for it is a subsequence of the broadcasts whose snapshot held it; its
      queue is at most 100 long; and received, queued and dropped add up to exactly those
      broadcasts, less the one in progress if that has not reached it yet. */
  lemma SubscriberStream(steps: seq<FanStep>, id: nat)
    requires id in Play(steps).clients
    ensures var s, cl := Play(steps), Play(steps).clients[id];
            && Subsequence(cl.received + cl.queue, cl.sent)
            && |cl.received| + |cl.queue| + cl.dropped ==
                 |cl.sent| - (if s.current.Some? && id in s.current.value.rest then 1 else 0)
            && |cl.queue| <= 100
  {
    FanReachable(steps);
    assert ClientOk(Play(steps), id);
  }

  // ---- what is sent and what is dropped -------------------------------------------

  /** The client has connected, for the first time, and not disconnected since. */
  ghost predicate Subscribed(steps: seq<FanStep>, id: nat) {
    exists n :: 0 <= n < |steps| && steps[n] == Connect(id) && FirstConnect(steps, id, n) && StaysFrom(steps, id, n)
  }

  predicate FirstConnect(steps: seq<FanStep>, id: nat, n: nat) {
    n <= |steps| && forall j :: 0 <= j < n ==> steps[j] != Connect(id)
  }

  predicate StaysFrom(steps: seq<FanStep>, id: nat, n: nat) {
    forall j :: n < j < |steps| ==> steps[j] != Disconnect(id)
  }

  lemma SubscribedStep(before: seq<FanStep>, step: FanStep, id: nat)
    ensures Subscribed(before + [step], id) <==>
            || (step == Connect(id) && FirstConnect(before, id, |before|))
            || (Subscribed(before, id) && step != Disconnect(id))
  {
    var n, steps := |before|, before + [step];
    assert forall j :: 0 <= j < n ==> steps[j] == before[j];
    if Subscribed(before, id) && step != Disconnect(id) {
      var i :| 0 <= i < n && before[i] == Connect(id) && FirstConnect(before, id, i) && StaysFrom(before, id, i);
      assert steps[i] == Connect(id) && FirstConnect(steps, id, i) && StaysFrom(steps, id, i);
    }
    if Subscribed(steps, id) {
      var i :| 0 <= i <= n && steps[i] == Connect(id) && FirstConnect(steps, id, i) && StaysFrom(steps, id, i);
      assert i < n ==> before[i] == Connect(id) && FirstConnect(before, id, i) && StaysFrom(before, id, i);
      assert i == n ==> FirstConnect(before, id, n);
      assert i < n ==> steps[n] == step;
    }
    if step == Connect(id) && FirstConnect(before, id, n) {
      assert steps[n] == Connect(id) && FirstConnect(steps, id, n) && StaysFrom(steps, id, n);
    }
  }

  /** What a step does to the membership of a client, and to the list of its broadcasts. */
  lemma MembershipStep(s: Fan, step: FanStep, id: nat)
    ensures id in FanAfter(s, step).clients <==> id in s.clients || step == Connect(id)
    ensures id in FanAfter(s, step).subs <==>
            (step == Connect(id) && id !in s.clients) || (id in s.subs && step != Disconnect(id))
    ensures SentTo(FanAfter(s, step), id) ==
            SentTo(s, id) + if step.StartBroadcast? && s.current.None? && id in s.subs && id in s.clients
                            then [step.ev] else []
  {
  }

  function SentTo(s: Fan, id: nat): seq<SSEEvent> {
    if id in s.clients then s.clients[id].sent else []
  }

  lemma {:induction false} SubscribedIs(steps: seq<FanStep>, id: nat)
    ensures id in Play(steps).clients <==> !FirstConnect(steps, id, |steps|)
    ensures id in Play(steps).subs <==> Subscribed(steps, id)
  {
    if steps != [] {
      var n := |steps| - 1;
      SubscribedIs(steps[..n], id);
      MembershipStep(Play(steps[..n]), steps[n], id);
      assert steps == steps[..n] + [steps[n]];
      SubscribedStep(steps[..n], steps[n], id);
      assert FirstConnect(steps, id, n + 1) <==> FirstConnect(steps[..n], id, n) && steps[n] != Connect(id);
    }
  }

  /** The broadcasts that started while the client was subscribed, in order; one starts only when
      the one before it has ended. */
  ghost function Broadcasts(steps: seq<FanStep>, id: nat): seq<SSEEvent> {
    if steps == [] then []
    else
      var before, step := steps[..|steps| - 1], steps[|steps| - 1];
      if step.StartBroadcast? && Play(before).current.None? && Subscribed(before, id)
      then Broadcasts(before, id) + [step.ev] else Broadcasts(before, id)
  }

  /** Every subscriber is in the snapshot of every broadcast that starts while it is subscribed,
      and no other client is. */
  lemma {:induction false} SentIsBroadcasts(steps: seq<FanStep>, id: nat)
    ensures SentTo(Play(steps), id) == Broadcasts(steps, id)
  {
    if steps != [] {
      var n := |steps| - 1;
      SentIsBroadcasts(steps[..n], id);
      SubscribedIs(steps[..n], id);
      FanReachable(steps[..n]);
      MembershipStep(Play(steps[..n]), steps[n], id);
    }
  }

  /** The client's queue has room for every event it is offered. */
  predicate AlwaysRoom(steps: seq<FanStep>, id: nat) {
    forall n :: 0 <= n < |steps| && steps[n] == Deliver(id) && id in Play(steps[..n]).clients ==>
      |Play(steps[..n]).clients[id].queue| < 100
  }

  /** Only a full queue loses an event: a client whose queue, 100 long, always has room receives
      or has queued every broadcast that has reached it, in order. */
  lemma NoLossWhileRoom(steps: seq<FanStep>, id: nat)
    requires AlwaysRoom(steps, id) && id in Play(steps).clients
    ensures var s, cl := Play(steps), Play(steps).clients[id];
            && cl.dropped == 0
            && (s.current.None? || id !in s.current.value.rest ==> cl.received + cl.queue == Broadcasts(steps, id))
  {
    NoDropWhileRoom(steps, id);
    FanReachable(steps);
    SentIsBroadcasts(steps, id);
    var s, cl := Play(steps), Play(steps).clients[id];
    assert ClientOk(s, id);
    if s.current.None? || id !in s.current.value.rest {
      SubsequenceOfSameLength(cl.received + cl.queue, cl.sent);
    }
  }

  lemma {:induction false} NoDropWhileRoom(steps: seq<FanStep>, id: nat)
    requires AlwaysRoom(steps, id) && id in Play(steps).clients
    ensures Play(steps).clients[id].dropped == 0
  {
    var n := |steps| - 1;
    var before := steps[..n];
    if id in Play(before).clients {
      assert forall i :: 0 <= i < n ==> before[..i] == steps[..i];
      assert AlwaysRoom(before, id);
      NoDropWhileRoom(before, id);
      assert steps[n] == Deliver(id) ==> |Play(steps[..n]).clients[id].queue| < 100;
    }
  }

  lemma {:induction false} SubsequenceIsShorter(a: seq<SSEEvent>, b: seq<SSEEvent>)
    requires Subsequence(a, b)
    ensures |a| <= |b|
  {
    if a != [] {
      if Subsequence(a, b[..|b| - 1]) {
        SubsequenceIsShorter(a, b[..|b| - 1]);
      } else {
        SubsequenceIsShorter(a[..|a| - 1], b[..|b| - 1]);
      }
    }
  }

  lemma {:induction false} SubsequenceOfSameLength(a: seq<SSEEvent>, b: seq<SSEEvent>)
    requires Subsequence(a, b) && |a| == |b|
    ensures a == b
  {
    if a != [] {
      if Subsequence(a, b[..|b| - 1]) {
        SubsequenceIsShorter(a, b[..|b| - 1]);
      } else {
        SubsequenceOfSameLength(a[..|a| - 1], b[..|b| - 1]);
        assert a == a[..|a| - 1] + [a[|a| - 1]] && b == b[..|b| - 1] + [b[|b| - 1]];
      }
    }
  }

  lemma BroadcastToOne(id: nat, ev: SSEEvent)
    ensures FanAfter(Fan(map[id := Client([], [], 0, [])], {id}, None), StartBroadcast(ev))
            == Fan(map[id := Client([], [], 0, [ev])], {id}, Some(Broadcast(ev, {id})))
    ensures FanAfter(Fan(map[id := Client([], [], 0, [ev])], {id}, Some(Broadcast(ev, {id}))), Deliver(id))
            == Fan(map[id := Client([ev], [], 0, [ev])], {id}, Some(Broadcast(ev, {})))
  {
    var s, none: seq<SSEEvent> := Fan(map[id := Client([], [], 0, [])], {id}, None), [];
    assert none + [ev] == [ev];
    assert FanAfter(s, StartBroadcast(ev)).clients == map[id := Client([], [], 0, [ev])];
    assert {id} - {id} == {};
  }

  /** Events do arrive: a subscriber that is offered the first broadcast and reads has received
      it, and the broadcast can end. */
  lemma FirstBroadcastArrives(id: nat, ev: SSEEvent)
    ensures Play([Connect(id), StartBroadcast(ev), Deliver(id), EndBroadcast, Receive(id)])
            == Fan(map[id := Client([], [ev], 0, [ev])], {id}, None)
  {
    var steps := [Connect(id), StartBroadcast(ev), Deliver(id), EndBroadcast, Receive(id)];
    assert steps[..4][..3] == steps[..3] && steps[..3][..2] == steps[..2] && steps[..2][..1] == steps[..1];
    assert steps[..1][..0] == [];
    assert Play(steps[..1]) == Fan(map[id := Client([], [], 0, [])], {id}, None);
    BroadcastToOne(id, ev);
    assert Play(steps[..3]) == Fan(map[id := Client([ev], [], 0, [ev])], {id}, Some(Broadcast(ev, {})));
    assert Play(steps[..4]) == Fan(map[id := Client([ev], [], 0, [ev])], {id}, None);
    var none: seq<SSEEvent> := [];
    assert none + [ev] == [ev] && [ev][1..] == none;
  }

  // ---- isolation ------------------------------------------------------------------

  /** The same run with subscriber x never reading, so that its queue fills up. */
  function Stalled(steps: seq<FanStep>, x: nat): seq<FanStep> {
    if steps == [] then []
    else Stalled(steps[..|steps| - 1], x)
         + if steps[|steps| - 1] == Receive(x) then [] else [steps[|steps| - 1]]
  }

  /** The two states differ at most in what x has read and kept. */
  predicate SameButFor(s: Fan, t: Fan, x: nat) {
    && s.subs == t.subs && s.current == t.current && s.clients.Keys == t.clients.Keys
    && forall id :: id in s.clients && id != x ==> s.clients[id] == t.clients[id]
  }

  lemma SameStep(s: Fan, t: Fan, step: FanStep, x: nat)
    requires SameButFor(s, t, x)
    ensures step != Receive(x) ==> SameButFor(FanAfter(s, step), FanAfter(t, step), x)
    ensures step == Receive(x) ==> SameButFor(FanAfter(s, step), t, x)
  {
  }

  /** Isolation: a subscriber that stops reading, however full its queue gets, leaves every
      other subscriber's stream exactly as it would have been. */
  lemma {:induction false} SlowSubscriberIsIsolated(steps: seq<FanStep>, x: nat)
    ensures SameButFor(Play(steps), Play(Stalled(steps, x)), x)
  {
    if steps != [] {
      var n := |steps| - 1;
      SlowSubscriberIsIsolated(steps[..n], x);
      SameStep(Play(steps[..n]), Play(Stalled(steps[..n], x)), steps[n], x);
      var before := Stalled(steps[..n], x);
      if steps[n] != Receive(x) {
        assert (before + [steps[n]])[..|before|] == before;
      } else {
        assert before + [] == before;
      }
    }
  }
}
