/**
  The polling loop of `DreamCheekyButtonThread.run` as a whole: each poll
  either fails with a USB error, which is absorbed without touching the
  classifier, or yields a report byte that is decoded, classified and
  dispatched. Consumers may take events from the queue between polls, not
  between the events of one poll. A full queue raises out of the loop, which
  ends the thread.
 */
module Monitor {
  import opened Wrappers
  import opened Events
  import opened Decoder
  import opened Classifier
  import opened Dispatcher

  /** The outcome of one read: the first report byte at a time, or a USB error (a time-out or any other). */
  datatype Reading = Report(at: nat, data0: bv8) | UsbError(timedOut: bool)

  /** What can happen next: the loop polls the device, or a consumer takes an event from the queue. */
  datatype Action = Poll(reading: Reading) | Consume

  /** The loop's classifier state, its outbox, what consumers have taken, and whether the thread still runs. */
  datatype Loop = Loop(classifier: State, out: Outbox, consumed: seq<EventType>, alive: bool)

  /** The loop as it starts: initial classifier, empty queue, nothing handled yet. */
  const Start: Loop := Loop(Initial, Outbox([], []), [], true)

  /** The loop invariant: the queue stays within its capacity. */
  predicate Valid(m: Loop)
  {
    Bounded(m.out)
  }

  /** One iteration of the loop. */
  function PollOnce(cfg: Config, d: Settings, m: Loop, rd: Reading): (m': Loop)
    ensures !m.alive || rd.UsbError? ==> m' == m
    ensures m'.alive ==> m.alive
    ensures Valid(m) ==> Valid(m')
    ensures m'.consumed == m.consumed
  {
    if !m.alive then m
    else
      match rd
      case UsbError(_) => m
      case Report(at, data0) =>
        var e := Step(cfg, m.classifier, Tick(at, Decode(data0)));
        match HandleAll(d, m.out, e.events)
        case Delivered(o) => Loop(e.next, o, m.consumed, true)
        case QueueFull(o) => Loop(m.classifier, o, m.consumed, false)
  }

  /** One action: a poll, or a consumer taking the oldest queued event. */
  function Perform(cfg: Config, d: Settings, m: Loop, a: Action): (m': Loop)
    ensures m'.alive ==> m.alive
    ensures Valid(m) ==> Valid(m')
    ensures m'.out.spawned == m.out.spawned || a.Poll?
  {
    match a
    case Poll(rd) => PollOnce(cfg, d, m, rd)
    case Consume =>
      var (taken, o) := Take(m.out);
      match taken
      case None => m
      case Some(e) => Loop(m.classifier, o, m.consumed + [e], m.alive)
  }

  /** A sequence of actions, in order. */
  function PerformAll(cfg: Config, d: Settings, m: Loop, acts: seq<Action>): (m': Loop)
    ensures m'.alive ==> m.alive
    ensures Valid(m) ==> Valid(m')
    decreases |acts|
  {
    if |acts| == 0 then m
    else PerformAll(cfg, d, Perform(cfg, d, m, acts[0]), acts[1..])
  }

  /** The decoded, time-stamped sample an action yields: one for a report, none otherwise. */
  function TickOf(a: Action): (ts: seq<Tick>)
    ensures |ts| <= 1
  {
    match a
    case Poll(Report(at, data0)) => [Tick(at, Decode(data0))]
    case _ => []
  }

  /** The decoded, time-stamped samples among the actions, in order. */
  function Ticks(acts: seq<Action>): (ts: seq<Tick>)
    ensures |ts| <= |acts|
    decreases |acts|
  {
    if |acts| == 0 then []
    else TickOf(acts[0]) + Ticks(acts[1..])
  }

  /** The loop-to-classifier correspondence for a single action on a thread that survives it. */
  lemma PerformRunsClassifier(cfg: Config, d: Settings, m: Loop, a: Action)
    requires Perform(cfg, d, m, a).alive
    ensures var m' := Perform(cfg, d, m, a);
      var r := Run(cfg, m.classifier, TickOf(a));
      && m'.classifier == r.next
      && m'.out.spawned == m.out.spawned + When(d.hasHandler, r.events)
      && m'.consumed + m'.out.queue == m.consumed + m.out.queue + When(d.enqueueEvents, r.events)
  {
    var m' := Perform(cfg, d, m, a);
    match a
    case Consume =>
      var (taken, o) := Take(m.out);
      if taken.Some? {
        assert m'.consumed + m'.out.queue == m.consumed + ([taken.value] + o.queue);
      }
    case Poll(UsbError(_)) =>
    case Poll(Report(at, data0)) =>
      var t := Tick(at, Decode(data0));
      var e := Step(cfg, m.classifier, t);
      assert Run(cfg, m.classifier, [t]) == Emission(e.next, e.events + []) by {
        assert [t][1..] == [];
      }
      assert e.events + [] == e.events;
      HandleAllDelivered(d, m.out, e.events);
  }

  /** Splits a loop trace into its first action and the rest, on the loop side and on the classifier side. */
  lemma LoopUnfold(cfg: Config, d: Settings, m: Loop, acts: seq<Action>)
    requires |acts| > 0
    ensures PerformAll(cfg, d, m, acts) == PerformAll(cfg, d, Perform(cfg, d, m, acts[0]), acts[1..])
    ensures var r1 := Run(cfg, m.classifier, TickOf(acts[0]));
      var r2 := Run(cfg, r1.next, Ticks(acts[1..]));
      Run(cfg, m.classifier, Ticks(acts)) == Emission(r2.next, r1.events + r2.events)
  {
    assert Ticks(acts) == TickOf(acts[0]) + Ticks(acts[1..]);
    RunAppend(cfg, m.classifier, TickOf(acts[0]), Ticks(acts[1..]));
  }

  /** As long as the thread survives, the loop's classifier state is the classifier run on the samples it read. */
  lemma {:induction false} LoopState(cfg: Config, d: Settings, m: Loop, acts: seq<Action>)
    requires PerformAll(cfg, d, m, acts).alive
    ensures PerformAll(cfg, d, m, acts).classifier == Run(cfg, m.classifier, Ticks(acts)).next
    decreases |acts|
  {
    if |acts| > 0 {
      var m1 := Perform(cfg, d, m, acts[0]);
      LoopUnfold(cfg, d, m, acts);
      LoopState(cfg, d, m1, acts[1..]);
      PerformRunsClassifier(cfg, d, m, acts[0]);
    }
  }

  /**
    As long as the thread survives, a handler thread was started for every
    event of the classifier run, in emission order, when a handler is set.
   */
  lemma {:induction false} LoopHandlerCalls(cfg: Config, d: Settings, m: Loop, acts: seq<Action>)
    requires PerformAll(cfg, d, m, acts).alive
    ensures PerformAll(cfg, d, m, acts).out.spawned
         == m.out.spawned + When(d.hasHandler, Run(cfg, m.classifier, Ticks(acts)).events)
    decreases |acts|
  {
    if |acts| == 0 {
      assert m.out.spawned + When(d.hasHandler, []) == m.out.spawned;
    } else {
      var m1 := Perform(cfg, d, m, acts[0]);
      var m' := PerformAll(cfg, d, m, acts);
      var r1 := Run(cfg, m.classifier, TickOf(acts[0]));
      var r2 := Run(cfg, r1.next, Ticks(acts[1..]));
      var w1 := When(d.hasHandler, r1.events);
      var w2 := When(d.hasHandler, r2.events);
      assert m'.out.spawned == m1.out.spawned + w2 && Run(cfg, m.classifier, Ticks(acts)).events == r1.events + r2.events by {
        LoopUnfold(cfg, d, m, acts);
        LoopHandlerCalls(cfg, d, m1, acts[1..]);
        PerformRunsClassifier(cfg, d, m, acts[0]);
      }
      assert m1.out.spawned == m.out.spawned + w1 by {
        PerformRunsClassifier(cfg, d, m, acts[0]);
      }
      WhenAppend(d.hasHandler, r1.events, r2.events);
      Associative(m.out.spawned, w1, w2);
    }
  }

  /**
    As long as the thread survives, what consumers took followed by what is
    still queued is the classifier's event stream, first in first out, when
    queueing is enabled.
   */
  lemma {:induction false} LoopQueueOrder(cfg: Config, d: Settings, m: Loop, acts: seq<Action>)
    requires PerformAll(cfg, d, m, acts).alive
    ensures var m' := PerformAll(cfg, d, m, acts);
      m'.consumed + m'.out.queue == m.consumed + m.out.queue + When(d.enqueueEvents, Run(cfg, m.classifier, Ticks(acts)).events)
    decreases |acts|
  {
    if |acts| == 0 {
      assert m.consumed + m.out.queue + When(d.enqueueEvents, []) == m.consumed + m.out.queue;
    } else {
      var m1 := Perform(cfg, d, m, acts[0]);
      var m' := PerformAll(cfg, d, m, acts);
      var r1 := Run(cfg, m.classifier, TickOf(acts[0]));
      var r2 := Run(cfg, r1.next, Ticks(acts[1..]));
      var w1 := When(d.enqueueEvents, r1.events);
      var w2 := When(d.enqueueEvents, r2.events);
      assert m'.consumed + m'.out.queue == m1.consumed + m1.out.queue + w2 && Run(cfg, m.classifier, Ticks(acts)).events == r1.events + r2.events by {
        LoopUnfold(cfg, d, m, acts);
        LoopQueueOrder(cfg, d, m1, acts[1..]);
        PerformRunsClassifier(cfg, d, m, acts[0]);
      }
      assert m1.consumed + m1.out.queue == m.consumed + m.out.queue + w1 by {
        PerformRunsClassifier(cfg, d, m, acts[0]);
      }
      WhenAppend(d.enqueueEvents, r1.events, r2.events);
      Associative(m.consumed + m.out.queue, w1, w2);
    }
  }

  /** Without queueing the loop never dies: only the queue can raise out of it. */
  lemma {:induction false} WithoutQueueNeverStops(cfg: Config, d: Settings, m: Loop, acts: seq<Action>)
    requires !d.enqueueEvents
    ensures PerformAll(cfg, d, m, acts).alive == m.alive
    decreases |acts|
  {
    if |acts| > 0 {
      WithoutQueueNeverStops(cfg, d, Perform(cfg, d, m, acts[0]), acts[1..]);
    }
  }

  /** The actions with every failed read removed. */
  function WithoutErrors(acts: seq<Action>): (r: seq<Action>)
    ensures forall a :: a in r ==> a in acts && !(a.Poll? && a.reading.UsbError?)
    decreases |acts|
  {
    if |acts| == 0 then []
    else if acts[0].Poll? && acts[0].reading.UsbError? then WithoutErrors(acts[1..])
    else [acts[0]] + WithoutErrors(acts[1..])
  }

  /** Failed reads of any kind, time-outs or not, leave no trace on the loop. */
  lemma {:induction false} ErrorsAreInvisible(cfg: Config, d: Settings, m: Loop, acts: seq<Action>)
    ensures PerformAll(cfg, d, m, acts) == PerformAll(cfg, d, m, WithoutErrors(acts))
    decreases |acts|
  {
    if |acts| > 0 {
      var m1 := Perform(cfg, d, m, acts[0]);
      ErrorsAreInvisible(cfg, d, m1, acts[1..]);
      if !(acts[0].Poll? && acts[0].reading.UsbError?) {
        var w := [acts[0]] + WithoutErrors(acts[1..]);
        assert w[0] == acts[0] && w[1..] == WithoutErrors(acts[1..]);
      } else {
        ErrorsAreInvisible(cfg, d, m, acts[1..]);
      }
    }
  }

  /**
    One poll whose events overflow the queue ends the loop: the events that
    fitted are queued and handled, the queue is full, and the thread is gone.
   */
  lemma OverflowStopsLoop(cfg: Config, d: Settings, m: Loop, at: nat, data0: bv8)
    requires m.alive && Valid(m)
    requires d.enqueueEvents
    requires |m.out.queue| + |Step(cfg, m.classifier, Tick(at, Decode(data0))).events| > QueueCapacity
    ensures var m' := PollOnce(cfg, d, m, Report(at, data0));
      && !m'.alive
      && |m'.out.queue| == QueueCapacity
      && m'.out.queue == m.out.queue + Step(cfg, m.classifier, Tick(at, Decode(data0))).events[..QueueCapacity - |m.out.queue|]
  {
    var es := Step(cfg, m.classifier, Tick(at, Decode(data0))).events;
    HandleAllSucceedsIffFits(d, m.out, es);
    HandleAllQueueFull(d, m.out, es);
  }

}
