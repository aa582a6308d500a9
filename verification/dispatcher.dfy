/**
  Event dispatch (`handle_event`): each recognised event is put on the
  thread's bounded event queue when queueing is enabled, and handed to the
  registered handler when there is one. The handler runs on a thread of its
  own, so the model only records, in order, which events a handler thread
  was started for. A full queue makes `put_nowait` raise, and nothing in the
  loop catches that exception.
 */
module Dispatcher {
  import opened Wrappers
  import opened Events

  /** The size the event queue is created with. */
  const QueueCapacity: nat := 128

  /** Whether events are queued, and whether a handler is registered. */
  datatype Settings = Settings(enqueueEvents: bool, hasHandler: bool)

  /** The event queue, and the events handler threads were started for, oldest first. */
  datatype Outbox = Outbox(queue: seq<EventType>, spawned: seq<EventType>)

  /** The queue holds no more than its capacity. */
  predicate Bounded(o: Outbox)
  {
    |o.queue| <= QueueCapacity
  }

  /** All events were dispatched, or the queue was full and dispatch stopped with the exception. */
  datatype Delivery = Delivered(out: Outbox) | QueueFull(out: Outbox)

  /** `es` when `b` holds, nothing otherwise. */
  function When(b: bool, es: seq<EventType>): seq<EventType>
  {
    if b then es else []
  }

  /** `When` distributes over concatenation. */
  lemma WhenAppend(b: bool, xs: seq<EventType>, ys: seq<EventType>)
    ensures When(b, xs + ys) == When(b, xs) + When(b, ys)
  {
  }

  /** Dispatches one event: queue it if enabled (failing on a full queue), then start the handler. */
  function HandleEvent(d: Settings, o: Outbox, e: EventType): (r: Delivery)
    ensures r.QueueFull? <==> d.enqueueEvents && |o.queue| >= QueueCapacity
    ensures r.QueueFull? ==> r.out == o
    ensures Bounded(o) ==> Bounded(r.out)
  {
    if d.enqueueEvents && |o.queue| >= QueueCapacity then QueueFull(o)
    else Delivered(Outbox(o.queue + When(d.enqueueEvents, [e]), o.spawned + When(d.hasHandler, [e])))
  }

  /** Dispatches the events of one sample in order, stopping at the first that finds the queue full. */
  function HandleAll(d: Settings, o: Outbox, es: seq<EventType>): (r: Delivery)
    ensures Bounded(o) ==> Bounded(r.out)
    ensures !d.enqueueEvents ==> r.Delivered?
    decreases |es|
  {
    if |es| == 0 then Delivered(o)
    else
      var first := HandleEvent(d, o, es[0]);
      if first.QueueFull? then first
      else HandleAll(d, first.out, es[1..])
  }

  /**
    A dispatch that succeeds queued every event (if queueing is enabled) and
    handed every event to the handler (if there is one), in order.
   */
  lemma {:induction false} HandleAllDelivered(d: Settings, o: Outbox, es: seq<EventType>)
    requires HandleAll(d, o, es).Delivered?
    ensures HandleAll(d, o, es).out == Outbox(o.queue + When(d.enqueueEvents, es), o.spawned + When(d.hasHandler, es))
    decreases |es|
  {
    if |es| > 0 {
      var first := HandleEvent(d, o, es[0]);
      HandleAllDelivered(d, first.out, es[1..]);
      assert es == [es[0]] + es[1..];
      assert When(d.enqueueEvents, es) == When(d.enqueueEvents, [es[0]]) + When(d.enqueueEvents, es[1..]);
      assert When(d.hasHandler, es) == When(d.hasHandler, [es[0]]) + When(d.hasHandler, es[1..]);
    }
  }

  /** Dispatch into a queue within its capacity succeeds exactly when queueing is off or all the events fit. */
  lemma {:induction false} HandleAllSucceedsIffFits(d: Settings, o: Outbox, es: seq<EventType>)
    requires Bounded(o)
    ensures HandleAll(d, o, es).Delivered? <==> !d.enqueueEvents || |o.queue| + |es| <= QueueCapacity
    decreases |es|
  {
    if |es| > 0 {
      var first := HandleEvent(d, o, es[0]);
      if first.Delivered? {
        HandleAllSucceedsIffFits(d, first.out, es[1..]);
      }
    }
  }

  /**
    When the queue overflows, exactly the events that fitted were queued and
    handed to the handler, and the queue is left full; the rest are lost.
   */
  lemma {:induction false} HandleAllQueueFull(d: Settings, o: Outbox, es: seq<EventType>)
    requires Bounded(o)
    requires HandleAll(d, o, es).QueueFull?
    ensures var k := QueueCapacity - |o.queue|;
      && d.enqueueEvents
      && k < |es|
      && HandleAll(d, o, es).out == Outbox(o.queue + es[..k], o.spawned + When(d.hasHandler, es[..k]))
      && |HandleAll(d, o, es).out.queue| == QueueCapacity
    decreases |es|
  {
    var first := HandleEvent(d, o, es[0]);
    if first.Delivered? {
      var o' := first.out;
      HandleAllQueueFull(d, o', es[1..]);
      var k := QueueCapacity - |o.queue|;
      assert es[..k] == [es[0]] + es[1..][..k - 1];
    }
  }

  /** A consumer's non-blocking get: the oldest queued event, if any. */
  function Take(o: Outbox): (r: (Option<EventType>, Outbox))
    ensures r.0.None? <==> |o.queue| == 0
    ensures r.0.Some? ==> [r.0.value] + r.1.queue == o.queue
    ensures r.0.None? ==> r.1 == o
    ensures r.1.spawned == o.spawned
  {
    if |o.queue| == 0 then (None, o)
    else (Some(o.queue[0]), Outbox(o.queue[1..], o.spawned))
  }

}
