/** SSEHandler: the coalescer's pending map and the subscribers that events are fanned out to
    (handlers/sse_handler.go). */
module Coalescer {
  import opened CoalMachine

  const SUBSCRIBER_BUFFER_SIZE: nat := 100

  class Subscriber {
    var queue: seq<SSEEvent>

    constructor ()
      ensures queue == []
    {
      queue := [];
    }
  }

  /** A non-blocking send: dropped when the buffer is full. */
  function Offer(queue: seq<SSEEvent>, ev: SSEEvent): seq<SSEEvent> {
    if |queue| < SUBSCRIBER_BUFFER_SIZE then queue + [ev] else queue
  }

  function OfferAll(queue: seq<SSEEvent>, evs: seq<SSEEvent>): seq<SSEEvent> {
    if evs == [] then queue else Offer(OfferAll(queue, evs[..|evs| - 1]), evs[|evs| - 1])
  }

  /** SSEHandler with its coalescer. `broadcasts` and `dropped` are its two counters. */
  class SSEHandler {
    var pending: map<string, SSEEvent>
    /** The state of the coalescing machine that the calls so far have reached. */
    ghost var coal: Coal
    var subs: set<Subscriber>
    var broadcasts: seq<SSEEvent>
    var dropped: nat

    ghost predicate Valid()
      reads this`pending, this`coal
    {
      Reached(coal) && coal.pending == pending && !coal.flushing && !coal.done
    }

    constructor ()
      ensures Valid() && coal.submitted == [] && coal.emitted == []
      ensures pending == map[] && subs == {} && broadcasts == [] && dropped == 0
    {
      pending, subs, broadcasts, dropped := map[], {}, [], 0;
      coal := Coal(map[], false, [], false, false, false, [], [], []);
      new;
      assert CoalRun([coal]) && [coal][|[coal]| - 1] == coal;
    }

    method Submit(ev: SSEEvent)
      modifies this`pending, this`coal
      ensures pending == old(pending)[ev.kind := ev]
      ensures coal == CoalAfter(old(coal), SubmitEvent(ev))
      ensures old(Valid()) ==> Valid()
    {
      pending := pending[ev.kind := ev];
      if old(Valid()) {
        ReachedStep(coal, SubmitEvent(ev));
      }
      coal := CoalAfter(coal, SubmitEvent(ev));
    }

    method Subscribe() returns (s: Subscriber)
      modifies this`subs
      ensures fresh(s) && s.queue == [] && subs == old(subs) + {s}
    {
      s := new Subscriber();
      subs := subs + {s};
    }

    method Unsubscribe(s: Subscriber)
      modifies this`subs
      ensures subs == old(subs) - {s}
    {
      subs := subs - {s};
    }

    /** Every subscriber of the snapshot is offered the event; a full one only loses its own. */
    method SendEventNow(ev: SSEEvent)
      modifies this`broadcasts, this`dropped, subs
      ensures broadcasts == old(broadcasts) + [ev]
      ensures forall s :: s in subs ==> s.queue == Offer(old(s.queue), ev)
      ensures dropped == old(dropped) + |old(FullOf(subs))|
    {
      broadcasts := broadcasts + [ev];
      var rest := subs;
      while rest != {}
        invariant rest <= subs && broadcasts == old(broadcasts) + [ev]
        invariant forall s :: s in subs ==> s.queue == if s in rest then old(s.queue) else Offer(old(s.queue), ev)
        invariant dropped + |FullOf(rest)| == old(dropped) + |old(FullOf(subs))|
        decreases rest
      {
        var s :| s in rest;
        ghost var full := FullOf(rest);
        if |s.queue| < SUBSCRIBER_BUFFER_SIZE {
          s.queue := s.queue + [ev];
          assert FullOf(rest - {s}) == full;
        } else {
          dropped := dropped + 1;
          assert FullOf(rest - {s}) == full - {s};
        }
        rest := rest - {s};
      }
      assert FullOf(rest) == {};
    }

    ghost function FullOf(ss: set<Subscriber>): set<Subscriber>
      reads ss
    {
      set s | s in ss && |s.queue| >= SUBSCRIBER_BUFFER_SIZE
    }

    static method CollectValues(m: map<string, SSEEvent>) returns (order: seq<SSEEvent>)
      requires KeyedByKind(m)
      ensures IsOrder(m, order)
    {
      order := [];
      var keys := m.Keys;
      while keys != {}
        invariant keys <= m.Keys
        invariant forall i :: 0 <= i < |order| ==> order[i].kind in m.Keys - keys && m[order[i].kind] == order[i]
        invariant forall i, j :: 0 <= i < j < |order| ==> order[i].kind != order[j].kind
        invariant forall k :: k in m.Keys - keys ==> m[k] in order
        decreases keys
      {
        var k :| k in keys;
        order := order + [m[k]];
        keys := keys - {k};
      }
    }

    ghost method Took(step: CoalStep)
      requires Reached(coal) && CoalEnabled(coal, step)
      modifies this`coal
      ensures Reached(coal) && coal == CoalAfter(old(coal), step)
    {
      ReachedStep(coal, step);
      coal := CoalAfter(coal, step);
    }

    method EmitNext(ev: SSEEvent)
      requires Reached(coal) && coal.flushing && coal.batch != [] && coal.batch[0] == ev
      modifies this`coal, this`broadcasts, this`dropped, subs
      ensures Reached(coal)
      ensures coal == old(coal).(batch := old(coal).batch[1..], emitted := old(coal).emitted + [ev])
      ensures broadcasts == old(broadcasts) + [ev]
      ensures forall s :: s in subs ==> s.queue == Offer(old(s.queue), ev)
    {
      SendEventNow(ev);
      Took(Emit);
    }

    /** Broadcasts a batch in order. */
    method EmitAll(batch: seq<SSEEvent>)
      requires Reached(coal) && coal.flushing && coal.batch == batch
      modifies this`coal, this`broadcasts, this`dropped, subs
      ensures Reached(coal) && coal == old(coal).(batch := [], emitted := old(coal).emitted + batch)
      ensures broadcasts == old(broadcasts) + batch
      ensures forall s :: s in subs ==> s.queue == OfferAll(old(s.queue), batch)
    {
      ghost var coal0 := coal;
      for i := 0 to |batch|
        invariant Reached(coal) && subs == old(subs)
        invariant coal == coal0.(batch := batch[i..], emitted := coal0.emitted + batch[..i])
        invariant broadcasts == old(broadcasts) + batch[..i]
        invariant forall s :: s in subs ==> s.queue == OfferAll(old(s.queue), batch[..i])
      {
        assert batch[..i + 1][..i] == batch[..i] && batch[..i + 1] == batch[..i] + [batch[i]];
        EmitNext(batch[i]);
      }
      assert batch[..|batch|] == batch;
    }

    /** Swaps the pending map for an empty one, then emits what it held, in some order: one flush
        of the machine, whose window is everything submitted since the one before. */
    method FlushPending(final: bool) returns (order: seq<SSEEvent>)
      requires Reached(coal) && coal.pending == pending && !coal.flushing && !coal.done && (final ==> coal.stopping)
      modifies this`pending, this`coal, this`broadcasts, this`dropped, subs
      ensures Reached(coal) && !coal.flushing && coal.done == final && coal.stopping == old(coal).stopping
      ensures pending == coal.pending == map[] && IsOrder(old(pending), order)
      ensures coal.submitted == old(coal).submitted && coal.emitted == old(coal).emitted + order
      ensures coal.flushes == old(coal).flushes + [FlushLog(SwapAt(old(coal)), |coal.submitted|, order)]
      ensures broadcasts == old(broadcasts) + order
      ensures forall s :: s in subs ==> s.queue == OfferAll(old(s.queue), order)
    {
      ReachedIsOk(coal);
      order := [];
      if |pending| > 0 {
        order := CollectValues(pending);
      }
      Took(Swap(order, final));
      pending := map[];
      EmitAll(order);
      Took(EndFlush);
    }

    /** The ticker's flush. */
    method Flush() returns (order: seq<SSEEvent>)
      requires Valid()
      modifies this`pending, this`coal, this`broadcasts, this`dropped, subs
      ensures Valid() && pending == map[] && IsOrder(old(pending), order)
      ensures coal.submitted == old(coal).submitted && coal.emitted == old(coal).emitted + order
      ensures coal.flushes == old(coal).flushes + [FlushLog(SwapAt(old(coal)), |coal.submitted|, order)]
      ensures broadcasts == old(broadcasts) + order
      ensures forall s :: s in subs ==> s.queue == OfferAll(old(s.queue), order)
    {
      order := FlushPending(false);
    }

    /** stop: the final flush, after which the coalescer is done and has taken every submission. */
    method Stop() returns (order: seq<SSEEvent>)
      requires Valid()
      modifies this`pending, this`coal, this`broadcasts, this`dropped, subs
      ensures Reached(coal) && coal.done && pending == map[] && IsOrder(old(pending), order)
      ensures coal.submitted == old(coal).submitted && SwapAt(coal) == |coal.submitted|
      ensures coal.emitted == old(coal).emitted + order && broadcasts == old(broadcasts) + order
    {
      Took(SignalStop);
      order := FlushPending(true);
    }
  }
}
